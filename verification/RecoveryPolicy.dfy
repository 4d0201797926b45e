/**
 * When a resumed traversal that fails is retried from the top. The code retries for one error only;
 * the design document asks for a retry after every failure. Here stands exactly when the two agree.
 */
module RecoveryPolicy {
  import opened Basics
  import opened Feed
  import opened WatermarkTraversal
  import opened WatermarkMeaning
  import opened FeedRun
  import opened MonitorStore
  import opened IncrementalRun
  import opened CatchUp

  // ----- what the source answers to a traversal

  datatype Cut = Cut(listings: seq<Listing>, crossed: bool)

  /** The listings of a page not met before, up to the first one older than the boundary. */
  function CutPage(boundary: int, listings: seq<Listing>, index: nat, seen: set<ListingId>): Cut
    requires index <= |listings|
    decreases |listings| - index
  {
    if index == |listings| then Cut([], false) else
      var x := listings[index];
      if x.listId in seen then CutPage(boundary, listings, index + 1, seen)
      else if x.listTime.At? && x.listTime.epoch < boundary then Cut([x], true)
      else
        var rest := CutPage(boundary, listings, index + 1, seen + {x.listId});
        Cut([x] + rest.listings, rest.crossed)
  }

  datatype Answered = Answered(listings: seq<Listing>, refused: bool)

  /** All pages asked for, joined; `refused`: a request before the boundary was crossed is refused. */
  function Answers(adapter: Adapter, boundary: int, maxPages: int, seen: set<ListingId>,
                   cursor: Option<Cursor>, read: nat): Answered
    decreases maxPages - read
  {
    if read >= maxPages then Answered([], false) else
      match adapter(read, cursor)
      case FetchFailed(_) => Answered([], true)
      case Fetched(page) =>
        var cut := CutPage(boundary, page.listings, 0, seen);
        if cut.crossed || page.nextCursor.None? || read + 1 == maxPages then Answered(cut.listings, false) else
          var rest := Answers(adapter, boundary, maxPages, seen + Ids(page.listings), page.nextCursor, read + 1);
          Answered(cut.listings + rest.listings, rest.refused)
  }

  /** Every listing has a time and none is newer than the one before it, `last` being the one before the first. */
  predicate Continues(last: Option<int>, listings: seq<Listing>)
    decreases |listings|
  {
    listings == []
    || (listings[0].listTime.At? && (last.Some? ==> listings[0].listTime.epoch <= last.value)
        && Continues(Some(listings[0].listTime.epoch), listings[1..]))
  }

  function LastOf(last: Option<int>, listings: seq<Listing>): Option<int> {
    if listings == [] || listings[|listings| - 1].listTime.Unparsable? then last
    else Some(listings[|listings| - 1].listTime.epoch)
  }

  function LastEpoch(scan: Scan): Option<int> {
    if scan.previousObservation.None? then None else Some(scan.previousObservation.value.epoch)
  }

  lemma {:induction false} ContinuesAppend(last: Option<int>, a: seq<Listing>, b: seq<Listing>)
    ensures Continues(last, a + b) <==> Continues(last, a) && Continues(LastOf(last, a), b)
    decreases |a|
  {
    if a == [] {
      assert a + b == b;
    } else {
      assert (a + b)[1..] == a[1..] + b;
      if a[0].listTime.At? {
        ContinuesAppend(Some(a[0].listTime.epoch), a[1..], b);
        assert |a| > 1 ==> a[1..][|a| - 2] == a[|a| - 1];
        if Continues(last, a) {
          AllTimed(last, a);
        }
      }
    }
  }

  lemma {:induction false} AllTimed(last: Option<int>, listings: seq<Listing>)
    requires Continues(last, listings)
    ensures Timed(listings)
    decreases |listings|
  {
    if listings != [] {
      AllTimed(Some(listings[0].listTime.epoch), listings[1..]);
      assert listings == [listings[0]] + listings[1..];
    }
  }

  lemma {:induction false} ContinuesIsSorted(last: Option<int>, listings: seq<Listing>)
    ensures Continues(last, listings) <==>
      Sorted(listings) && (last.Some? && listings != [] ==> listings[0].listTime.epoch <= last.value)
    decreases |listings|
  {
    if listings != [] {
      var (first, rest) := (listings[0], listings[1..]);
      assert first in listings && listings == [first] + rest;
      if first.listTime.At? {
        ContinuesIsSorted(Some(first.listTime.epoch), rest);
        if Sorted(listings) {
          assert forall i | 0 <= i < |rest| :: rest[i] == listings[i + 1];
        }
        if Continues(last, listings) {
          assert forall i | 0 < i < |listings| :: listings[i] == rest[i - 1];
          assert rest != [] ==> rest[0].listTime.epoch <= first.listTime.epoch;
          forall i, j | 0 <= i < j < |listings| ensures listings[i].listTime.epoch >= listings[j].listTime.epoch {
            assert listings[j] in listings && rest[j - 1].listTime.epoch <= rest[0].listTime.epoch;
          }
        }
      }
    }
  }

  // ----- when a traversal fails

  lemma {:induction false} PageFailsExactly(previous: Watermark, scan: Scan, page: nat, listings: seq<Listing>, index: nat)
    requires previous.boundaryTime.At? && index <= |listings|
    ensures var step := AbsorbFrom(previous, scan, page, listings, index);
      var cut := CutPage(previous.boundaryTime.epoch, listings, index, scan.seenIds);
      && (step.Stop? <==> !Continues(LastEpoch(scan), cut.listings))
      && (!step.Stop? ==> (step.Crossed? <==> cut.crossed))
      && (step.Continue? ==>
            && step.scan.seenIds == scan.seenIds + Ids(listings[index..])
            && LastEpoch(step.scan) == LastOf(LastEpoch(scan), cut.listings))
    decreases |listings| - index
  {
    hide Ids, NoteMaximum;
    if index == |listings| {
      assert listings[index..] == [];
      IdsEmpty();
    } else {
      var x := listings[index];
      IdsCons(listings, index);
      var step := Absorb(previous, scan, page, index, x);
      assert scan.seenIds + Ids(listings[index..]) == scan.seenIds + {x.listId} + Ids(listings[index + 1..]);
      if x.listId in scan.seenIds {
        assert scan.seenIds + {x.listId} == scan.seenIds;
        PageFailsExactly(previous, scan, page, listings, index + 1);
      } else if step.Continue? {
        NotedKeeps(previous, scan, page, index, x);
        PageFailsExactly(previous, step.scan, page, listings, index + 1);
        var rest := CutPage(previous.boundaryTime.epoch, listings, index + 1, step.scan.seenIds).listings;
        assert ([x] + rest)[1..] == rest;
        assert rest != [] ==> ([x] + rest)[|rest|] == rest[|rest| - 1];
        if Continues(LastEpoch(step.scan), rest) {
          AllTimed(LastEpoch(step.scan), rest);
        }
      } else {
        FirstDecides(previous, scan, page, listings, index);
      }
    }
  }

  lemma NotedKeeps(previous: Watermark, scan: Scan, page: nat, index: nat, x: Listing)
    requires previous.boundaryTime.At? && x.listId !in scan.seenIds
    ensures var step := Absorb(previous, scan, page, index, x);
      step.Continue? ==>
        && step.scan.seenIds == scan.seenIds + {x.listId} && x.listTime.At?
        && LastEpoch(step.scan) == Some(x.listTime.epoch)
        && x.listTime.epoch >= previous.boundaryTime.epoch
        && (LastEpoch(scan).Some? ==> x.listTime.epoch <= LastEpoch(scan).value)
  {
  }

  /** A listing that stops the scan, by an error or by crossing. */
  lemma FirstDecides(previous: Watermark, scan: Scan, page: nat, listings: seq<Listing>, index: nat)
    requires previous.boundaryTime.At? && index < |listings| && listings[index].listId !in scan.seenIds
    requires !Absorb(previous, scan, page, index, listings[index]).Continue?
    ensures var step := Absorb(previous, scan, page, index, listings[index]);
      var cut := CutPage(previous.boundaryTime.epoch, listings, index, scan.seenIds);
      && (step.Stop? <==> !Continues(LastEpoch(scan), cut.listings))
      && (step.Crossed? ==> cut.crossed)
  {
    var x := listings[index];
    var cut := CutPage(previous.boundaryTime.epoch, listings, index, scan.seenIds);
    assert cut.listings[0] == x;
    assert cut.crossed && |cut.listings| == 1 ==> cut.listings[1..] == [];
  }

  lemma {:induction false} ResumeFailsExactly(adapter: Adapter, previous: Watermark, maxPages: int,
                                              scan: Scan, cursor: Option<Cursor>, read: nat)
    requires previous.boundaryTime.At? && read < maxPages
    ensures var answered := Answers(adapter, previous.boundaryTime.epoch, maxPages, scan.seenIds, cursor, read);
      Resume(adapter, previous, maxPages, scan, cursor, read).outcome.Failed? <==>
        answered.refused || !Continues(LastEpoch(scan), answered.listings)
    decreases maxPages - read
  {
    hide AbsorbFrom, CutPage, Continues, AccumulatedWatermark, MakeCheckpoint;
    if adapter(read, cursor).Fetched? {
      var page := adapter(read, cursor).page;
      assert page.listings[0..] == page.listings;
      PageFailsExactly(previous, scan, read + 1, page.listings, 0);
      var step := AbsorbFrom(previous, scan, read + 1, page.listings, 0);
      var cut := CutPage(previous.boundaryTime.epoch, page.listings, 0, scan.seenIds);
      if !cut.crossed && page.nextCursor.Some? && read + 1 != maxPages {
        var rest := Answers(adapter, previous.boundaryTime.epoch, maxPages, scan.seenIds + Ids(page.listings),
                            page.nextCursor, read + 1);
        ContinuesAppend(LastEpoch(scan), cut.listings, rest.listings);
        if step.Continue? {
          ResumeFailsExactly(adapter, previous, maxPages, step.scan, page.nextCursor, read + 1);
        }
      }
    } else {
      NothingContinues(LastEpoch(scan));
    }
  }

  lemma NothingContinues(last: Option<int>)
    ensures Continues(last, [])
  {
  }

  /** What a checkpoint's traversal is answered. */
  function Resumed(adapter: Adapter, previous: Watermark, maxPages: int, saved: Checkpoint): Answered
    requires previous.boundaryTime.At?
  {
    Answers(adapter, previous.boundaryTime.epoch, maxPages, {}, Some(saved.resumeCursor), 0)
  }

  /** The first listing answered is newer than the checkpoint's last observation. */
  predicate StartsNewer(answered: Answered, saved: Checkpoint) {
    saved.lastObservation.Some? && saved.lastObservation.value.listTime.At?
    && answered.listings != [] && answered.listings[0].listTime.At?
    && answered.listings[0].listTime.epoch > saved.lastObservation.value.listTime.epoch
  }

  /** A resumed traversal fails exactly on a refused request, an untimed listing or one newer than its predecessor. */
  lemma ResumedFailsExactly(adapter: Adapter, previous: Watermark, maxPages: int, saved: Checkpoint)
    requires previous.boundaryTime.At? && maxPages >= 1 && Persistable(saved)
    ensures var answered := Resumed(adapter, previous, maxPages, saved);
      Traverse(adapter, previous, maxPages, Some(saved)).outcome.Failed? <==>
        answered.refused || !Sorted(answered.listings) || StartsNewer(answered, saved)
  {
    hide Resume, Continues;
    var scan := InitialScan(Some(saved)).value;
    ResumeFailsExactly(adapter, previous, maxPages, scan, Some(saved.resumeCursor), 0);
    var answered := Resumed(adapter, previous, maxPages, saved);
    ContinuesIsSorted(LastEpoch(scan), answered.listings);
    if Sorted(answered.listings) && answered.listings != [] {
      assert answered.listings[0] in answered.listings;
    }
  }

  /** A traversal from the top fails exactly on a refused request, an untimed listing or one newer than its predecessor. */
  lemma FreshFailsExactly(adapter: Adapter, previous: Watermark, maxPages: int)
    requires previous.boundaryTime.At? && maxPages >= 1
    ensures var answered := Answers(adapter, previous.boundaryTime.epoch, maxPages, {}, None, 0);
      Traverse(adapter, previous, maxPages, None).outcome.Failed? <==> answered.refused || !Sorted(answered.listings)
  {
    hide Resume, Continues;
    var scan := InitialScan(None).value;
    ResumeFailsExactly(adapter, previous, maxPages, scan, None, 0);
    ContinuesIsSorted(None, Answers(adapter, previous.boundaryTime.epoch, maxPages, {}, None, 0).listings);
  }

  lemma CutStart(boundary: int, listings: seq<Listing>)
    ensures var cut := CutPage(boundary, listings, 0, {});
      if listings == [] then cut == Cut([], false) else cut.listings != [] && cut.listings[0] == listings[0]
  {
  }

  /** The first listing processed is the first one answered. */
  lemma {:induction false} FirstAnswered(adapter: Adapter, boundary: int, maxPages: int, cursor: Option<Cursor>, read: nat)
    ensures var first := FirstProcessed(adapter, maxPages, cursor, read);
      var answered := Answers(adapter, boundary, maxPages, {}, cursor, read).listings;
      && (first.Some? <==> answered != [])
      && (first.Some? ==> first.value.listId == answered[0].listId && first.value.listTime == answered[0].listTime)
    decreases maxPages - read
  {
    hide CutPage;
    if read < maxPages && adapter(read, cursor).Fetched? {
      var page := adapter(read, cursor).page;
      CutStart(boundary, page.listings);
      if page.listings == [] {
        IdsEmpty();
        assert {} + Ids(page.listings) == {};
        if page.nextCursor.Some? && read + 1 != maxPages {
          FirstAnswered(adapter, boundary, maxPages, page.nextCursor, read + 1);
        }
      }
    }
  }

  /** Of the failures of a resumed traversal exactly those whose first listing starts newer are retried. */
  lemma RetriedExactly(first: Adapter, previous: Watermark, maxPages: int, saved: Checkpoint)
    requires previous.boundaryTime.At? && maxPages >= 1 && Persistable(saved)
    ensures IsStaleCatchupCheckpointError(Traverse(first, previous, maxPages, Some(saved)).outcome) <==>
      StartsNewer(Resumed(first, previous, maxPages, saved), saved)
  {
    StaleExactly(first, previous, maxPages, Some(saved));
    FirstAnswered(first, previous.boundaryTime.epoch, maxPages, Some(saved.resumeCursor), 0);
  }

  // ----- the documented policy

  /** Recovery as the design document states it: whatever the resumed failure, one traversal from the top. */
  function TraverseAsDocumented(first: Adapter, second: Adapter, previous: Watermark, maxPages: int,
                                saved: Checkpoint): Attempt
  {
    var resumed := Traverse(first, previous, maxPages, Some(saved));
    if resumed.outcome.Failed? then
      var restarted := Traverse(second, previous, maxPages, None);
      Attempt(restarted.outcome, resumed.requests + restarted.requests)
    else resumed
  }

  lemma {:induction false} AsksAtLeastOnce(adapter: Adapter, previous: Watermark, maxPages: int,
                                           scan: Scan, cursor: Option<Cursor>, read: nat)
    requires previous.boundaryTime.At? && read < maxPages
    ensures Resume(adapter, previous, maxPages, scan, cursor, read).requests > read
    decreases maxPages - read
  {
    hide AbsorbFrom, AccumulatedWatermark, MakeCheckpoint;
    if adapter(read, cursor).Fetched? {
      var page := adapter(read, cursor).page;
      var step := AbsorbFrom(previous, scan, read + 1, page.listings, 0);
      if step.Continue? && page.nextCursor.Some? && read + 1 != maxPages {
        AsksAtLeastOnce(adapter, previous, maxPages, step.scan, page.nextCursor, read + 1);
      }
    }
  }

  /**
   * The code does what the document says exactly when the resumed answers start newer than the last
   * observation, or are complete, timed and newest first: so exactly when the resumed traversal does
   * not fail for another reason.
   */
  lemma DocumentedExactly(first: Adapter, second: Adapter, previous: Watermark, maxPages: int, saved: Checkpoint)
    requires previous.boundaryTime.At? && maxPages >= 1 && Persistable(saved)
    ensures var answered := Resumed(first, previous, maxPages, saved);
      TraverseRecovering(first, second, previous, maxPages, Some(saved))
      == TraverseAsDocumented(first, second, previous, maxPages, saved) <==>
        StartsNewer(answered, saved) || (!answered.refused && Sorted(answered.listings))
  {
    hide Resume, Answers, Sorted, StartsNewer;
    ResumedFailsExactly(first, previous, maxPages, saved);
    RetriedExactly(first, previous, maxPages, saved);
    AsksAtLeastOnce(second, previous, maxPages, InitialScan(None).value, None, 0);
  }

  /** Last observation at 30, then a page with times 20 and 25: the failure inside the page is not retried. */
  lemma InnerDisorderForExample(second: Adapter)
    ensures var saved := Checkpoint(7, Watermark(At(40), ["d"]), Some(LastObservation("c", At(30))));
      var page := Page([Listing("b", At(20), ""), Listing("a", At(25), "")], None);
      var first: Adapter := (calls: nat, cursor: Option<Cursor>) => Fetched(page);
      TraverseRecovering(first, second, Watermark(At(10), []), 5, Some(saved))
      == Attempt(Failed(BadOrder(Observation(1, 0, "b", At(20)), Observation(1, 1, "a", At(25)))), 1)
  {
    var previous := Watermark(At(10), []);
    var listings := [Listing("b", At(20), ""), Listing("a", At(25), "")];
    var saved := Checkpoint(7, Watermark(At(40), ["d"]), Some(LastObservation("c", At(30))));
    var scan := InitialScan(Some(saved)).value;
    var step := Absorb(previous, scan, 1, 0, listings[0]);
    assert "a" != "b" && "a"[0] != "b"[0];
    assert AbsorbFrom(previous, step.scan, 1, listings, 1) == Absorb(previous, step.scan, 1, 1, listings[1]);
  }

  /** The same with a saved cursor the source no longer accepts: one request, no retry. */
  lemma RefusedCursorForExample(second: Adapter, reason: string)
    ensures var saved := Checkpoint(7, Watermark(At(40), ["d"]), Some(LastObservation("c", At(30))));
      var first: Adapter := (calls: nat, cursor: Option<Cursor>) => FetchFailed(reason);
      TraverseRecovering(first, second, Watermark(At(10), []), 5, Some(saved)) == Attempt(Failed(SourceFailed(reason)), 1)
  {
  }

  /** `n` runs, each meeting the source as its own pair of answers says. */
  function Runs(db: Tables, monitorId: MonitorId, adapters: seq<(Adapter, Adapter)>, maxPages: int, select: Selector): Tables
    decreases |adapters|
  {
    if adapters == [] then db
    else Runs(Run(db, monitorId, None, adapters[0].0, adapters[0].1, maxPages, select).db, monitorId, adapters[1..],
              maxPages, select)
  }

  /** As long as the saved cursor is refused the catch-up stands still, whatever a request from the top would bring. */
  lemma {:induction false} RefusedCursorStandsStill(db: Tables, monitorId: MonitorId, adapters: seq<(Adapter, Adapter)>,
                                                    maxPages: int, select: Selector, saved: Checkpoint)
    requires monitorId in db.cursors && ParseCatchupCheckpoint(db.cursors[monitorId]) == Ok(Some(saved))
    requires forall pair: (Adapter, Adapter) | pair in adapters :: pair.0(0, Some(saved.resumeCursor)).FetchFailed?
    ensures Runs(db, monitorId, adapters, maxPages, select) == db
    decreases |adapters|
  {
    if adapters != [] {
      var (first, second) := adapters[0];
      assert adapters[0] in adapters;
      RefusedRun(db, monitorId, first, second, maxPages, select, saved);
      RefusedCursorStandsStill(db, monitorId, adapters[1..], maxPages, select, saved);
    }
  }

  lemma RefusedRun(db: Tables, monitorId: MonitorId, first: Adapter, second: Adapter, maxPages: int, select: Selector,
                   saved: Checkpoint)
    requires monitorId in db.cursors && ParseCatchupCheckpoint(db.cursors[monitorId]) == Ok(Some(saved))
    requires first(0, Some(saved.resumeCursor)).FetchFailed?
    ensures var r := Run(db, monitorId, None, first, second, maxPages, select); r.outcome.Err? && r.db == db
  {
    FailedRunChangesNothing(db, monitorId, None, first, second, maxPages, select);
    hide ParseCatchupCheckpoint, CommitRun, Select;
  }

  // ----- nothing is lost by a restart

  /** The pages of the first `n` requests behind `cursor`. */
  function PagesRead(adapter: Adapter, cursor: Option<Cursor>, read: nat, n: nat): seq<seq<Listing>>
    decreases n
  {
    if n == 0 || adapter(read, cursor).FetchFailed? then [] else
      var page := adapter(read, cursor).page;
      [page.listings] + if page.nextCursor.None? then [] else PagesRead(adapter, page.nextCursor, read + 1, n - 1)
  }

  lemma {:induction false} FirstOnFirstFilledPage(adapter: Adapter, maxPages: int, cursor: Option<Cursor>, read: nat)
    ensures var first := FirstProcessed(adapter, maxPages, cursor, read);
      first.Some? ==>
        && first.value.page > read && first.value.index == 0
        && AllEmpty(PagesRead(adapter, cursor, read, first.value.page - 1 - read))
    decreases maxPages - read
  {
    hide AllEmpty;
    NoPages();
    if read < maxPages && adapter(read, cursor).Fetched? {
      var page := adapter(read, cursor).page;
      if page.listings == [] && page.nextCursor.Some? {
        FirstOnFirstFilledPage(adapter, maxPages, page.nextCursor, read + 1);
        var first := FirstProcessed(adapter, maxPages, cursor, read);
        if first.Some? {
          EmptyPageMore(PagesRead(adapter, page.nextCursor, read + 1, first.value.page - 2 - read));
        }
      }
    }
  }

  predicate AllEmpty(pages: seq<seq<Listing>>) { forall i | 0 <= i < |pages| :: pages[i] == [] }

  lemma NoPages()
    ensures AllEmpty([])
  {
  }

  lemma EmptyPageMore(pages: seq<seq<Listing>>)
    ensures AllEmpty(pages) ==> AllEmpty([[]] + pages)
  {
  }

  /** When the stale error is raised, every page before the blamed one was empty: nothing had been collected. */
  lemma NothingCollectedWhenStale(first: Adapter, previous: Watermark, maxPages: int, saved: Checkpoint)
    requires previous.boundaryTime.At? && maxPages >= 1 && Persistable(saved)
    requires IsStaleCatchupCheckpointError(Traverse(first, previous, maxPages, Some(saved)).outcome)
    ensures var error := Traverse(first, previous, maxPages, Some(saved)).outcome.error;
      && error.current.index == 0 && error.current.page >= 1
      && AllEmpty(PagesRead(first, Some(saved.resumeCursor), 0, error.current.page - 1))
  {
    var scan := InitialScan(Some(saved)).value;
    var cursor := Some(saved.resumeCursor);
    if scan.previousObservation.Some? {
      ResumeFromCheckpoint(first, previous, maxPages, scan, cursor, 0, scan.previousObservation.value);
    } else {
      ResumeBlames(first, previous, maxPages, scan, cursor, 0);
    }
    FirstOnFirstFilledPage(first, maxPages, cursor, 0);
  }

  /** Over a sorted feed a restart reports the new listings of the top pages, as a pass begun there does. */
  lemma RestartIsExact(first: Adapter, previous: Watermark, maxPages: int, saved: Checkpoint, pages: seq<seq<Listing>>)
    requires previous.boundaryTime.At? && maxPages >= 1 && pages != []
    requires Sorted(Ahead(pages, 0, |pages|))
    requires IsStaleCatchupCheckpointError(Traverse(first, previous, maxPages, Some(saved)).outcome)
    ensures RunMeaning(pages, previous, maxPages, 0, [],
                       TraverseRecovering(first, FixedFeed(pages), previous, maxPages, Some(saved)).outcome)
  {
    hide Traverse, RunMeaning, Ahead, Sorted;
    assert [] + Ahead(pages, 0, |pages|) == Ahead(pages, 0, |pages|);
    TraverseMeaning(pages, previous, maxPages, [], None);
  }
}

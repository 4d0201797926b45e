/**
 * A whole history of one monitor: page-capped runs, runs that restart from the top, failed runs, and
 * a feed that changes at any time. A publication is a listing id together with its time, so a listing
 * raised to a newer time counts as a new publication.
 */
module History {
  import opened Basics
  import opened Feed
  import opened WatermarkTraversal
  import opened WatermarkMeaning
  import opened MonitorStore
  import opened StoreMeaning
  import opened IncrementalRun
  import opened CatchUp
  import ColdStart

  type Publication = (ListingId, Instant)

  function Publications(listings: seq<Listing>): set<Publication> {
    set x | x in listings :: (x.listId, x.listTime)
  }

  /** A publication the boundary already accounts for. */
  predicate Covered(w: Watermark, p: Publication) {
    w.boundaryTime.At? && p.1.At?
    && (p.1.epoch < w.boundaryTime.epoch || (p.1 == w.boundaryTime && p.0 in w.boundaryIds))
  }

  /** How often a publication was handed to the commit. */
  function Times(listings: seq<Listing>, p: Publication): nat {
    if listings == [] then 0
    else Times(listings[..|listings| - 1], p)
         + if (listings[|listings| - 1].listId, listings[|listings| - 1].listTime) == p then 1 else 0
  }

  /**
   * `current` is the feed as a request from the top sees it. `pages` is the feed as the running pass
   * sees it: the pages it has read, as they were then, and the pages behind its cursor, as they are
   * now; cursors are opaque, so a pass never meets what arrives above them. Between passes the two are
   * the same. `reported` and `selected` record what the runs handed to the commit, `known` what the
   * feed ever held, `restarts` how many runs began their pass anew.
   */
  datatype World = World(
    db: Tables,
    current: seq<seq<Listing>>,
    pages: seq<seq<Listing>>,
    reported: seq<Listing>,
    selected: seq<SelectedListing>,
    known: set<Publication>,
    restarts: nat)

  datatype Event =
    | RunMonitor(runId: Option<RunId>, maxPages: int, select: Selector)
    // a run whose resumed traversal meets `first`, finds its checkpoint stale and restarts
    | RestartedRun(runId: Option<RunId>, first: Adapter, maxPages: int, select: Selector)
    | BrokenRun(runId: Option<RunId>, first: Adapter, second: Adapter, maxPages: int, select: Selector)
    | FeedChanges(current: seq<seq<Listing>>, pages: seq<seq<Listing>>)

  function CurrentBoundary(w: World, monitorId: MonitorId): Result<Watermark, RunError> {
    if monitorId in w.db.cursors then ParseWatermark(w.db.cursors[monitorId]) else Err(ColdStartRequired)
  }

  function CurrentCheckpoint(w: World, monitorId: MonitorId): Option<Checkpoint> {
    if monitorId in w.db.cursors && ParseCatchupCheckpoint(w.db.cursors[monitorId]).Ok?
    then ParseCatchupCheckpoint(w.db.cursors[monitorId]).value else None
  }

  /** How many pages the running pass has read. */
  function Position(w: World, monitorId: MonitorId): nat {
    var saved := CurrentCheckpoint(w, monitorId);
    if saved.None? then 0 else saved.value.resumeCursor
  }

  /** A publication the feed never held, not older than the confirmed boundary. */
  predicate IsArrival(w: World, boundary: Watermark, x: Listing) {
    (x.listId, x.listTime) !in w.known && x.listTime.At? && boundary.boundaryTime.At?
    && x.listTime.epoch >= boundary.boundaryTime.epoch
  }

  /**
   * Listings may disappear at any time and pages be cut anew. Behind the pass's cursor new
   * publications may appear if they are not older than the confirmed boundary; above it, if they are
   * not older than anything the pass has read. What is behind the cursor does not move above it.
   */
  ghost predicate FeedMayBecome(w: World, monitorId: MonitorId, current: seq<seq<Listing>>, pages: seq<seq<Listing>>) {
    var at := Position(w, monitorId);
    && CurrentBoundary(w, monitorId).Ok?
    && ValidFeed(current) && ValidFeed(pages)
    && at <= |w.pages| && at < |pages| && pages[..at] == w.pages[..at]
    && (at == 0 ==> pages == current)
    && exists above: seq<Listing> ::
         && Flatten(current) == above + Flatten(pages[at..])
         && ChangeBehind(w, CurrentBoundary(w, monitorId).value, Flatten(w.pages[at..]), Flatten(pages[at..]))
         && ChangeAbove(w, CurrentBoundary(w, monitorId).value, Flatten(w.pages[..at]), Flatten(w.pages[at..]), above)
  }

  ghost predicate ChangeBehind(w: World, boundary: Watermark, before: seq<Listing>, now: seq<Listing>) {
    forall x | x in now :: (x.listId, x.listTime) in Publications(before) || IsArrival(w, boundary, x)
  }

  ghost predicate ChangeAbove(w: World, boundary: Watermark, read: seq<Listing>, behind: seq<Listing>, above: seq<Listing>) {
    forall x | x in above ::
      || ((x.listId, x.listTime) in Publications(Flatten(w.current)) && (x.listId, x.listTime) !in Publications(behind))
      || (IsArrival(w, boundary, x) && NotOlder(x.listTime, read))
  }

  ghost predicate NotOlder(time: Instant, listings: seq<Listing>) {
    time.At? && forall y | y in listings && y.listTime.At? :: time.epoch >= y.listTime.epoch
  }

  ghost predicate Possible(w: World, monitorId: MonitorId, e: Event) {
    match e
    case RunMonitor(_, maxPages, _) => maxPages >= 1
    case RestartedRun(_, first, maxPages, _) =>
      && maxPages >= 1 && CurrentBoundary(w, monitorId).Ok? && CurrentCheckpoint(w, monitorId).Some?
      && IsStaleCatchupCheckpointError(
           Traverse(first, CurrentBoundary(w, monitorId).value, maxPages, CurrentCheckpoint(w, monitorId)).outcome)
    case BrokenRun(runId, first, second, maxPages, select) =>
      Run(w.db, monitorId, runId, first, second, maxPages, select).outcome.Err?
    case FeedChanges(current, pages) => FeedMayBecome(w, monitorId, current, pages)
  }

  function RunOn(w: World, monitorId: MonitorId, e: Event): RunResult
    requires !e.FeedChanges?
  {
    match e
    case RunMonitor(runId, maxPages, select) =>
      Run(w.db, monitorId, runId, FixedFeed(w.pages), FixedFeed(w.current), maxPages, select)
    case RestartedRun(runId, first, maxPages, select) =>
      Run(w.db, monitorId, runId, first, FixedFeed(w.current), maxPages, select)
    case BrokenRun(runId, first, second, maxPages, select) =>
      Run(w.db, monitorId, runId, first, second, maxPages, select)
  }

  /** The feed as the pass sees it during the run. */
  function View(w: World, e: Event): seq<seq<Listing>> { if e.RestartedRun? then w.current else w.pages }

  function Record(w: World, e: Event, r: RunResult): World
    requires !e.FeedChanges?
  {
    if r.outcome.Err? || r.outcome.value.Failed? then w.(db := r.db)
    else w.(db := r.db,
            pages := (if r.outcome.value.Complete? then w.current else View(w, e)),
            reported := w.reported + r.outcome.value.newListings,
            selected := w.selected + Select(e.select, r.outcome.value.newListings),
            restarts := (if e.RestartedRun? then w.restarts + 1 else w.restarts))
  }

  function Next(w: World, monitorId: MonitorId, e: Event): World {
    if e.FeedChanges?
    then w.(current := e.current, pages := e.pages, known := w.known + Publications(Flatten(e.current)))
    else Record(w, e, RunOn(w, monitorId, e))
  }

  function Play(w: World, monitorId: MonitorId, events: seq<Event>): World {
    if events == [] then w
    else Next(Play(w, monitorId, events[..|events| - 1]), monitorId, events[|events| - 1])
  }

  ghost predicate AllPossible(w: World, monitorId: MonitorId, events: seq<Event>) {
    events == []
    || (AllPossible(w, monitorId, events[..|events| - 1])
        && Possible(Play(w, monitorId, events[..|events| - 1]), monitorId, events[|events| - 1]))
  }

  /** The history starts between passes, at boundary `start`, with nothing reported. */
  ghost predicate Starts(w: World, monitorId: MonitorId, start: Watermark) {
    && w.reported == [] && w.selected == [] && w.restarts == 0
    && ValidFeed(w.pages) && w.current == w.pages
    && MidPass(w.db, monitorId, w.pages, start, 0, [])
    && Publications(Flatten(w.pages)) <= w.known
    && forall id | id in start.boundaryIds :: (id, start.boundaryTime) in w.known
  }

  // ----- the invariant

  /** `earlier` was reported by other passes; the current pass, from `previous`, has done `at` pages. */
  ghost predicate InPass(start: Watermark, w: World, monitorId: MonitorId,
                         previous: Watermark, at: nat, earlier: seq<Listing>)
  {
    && previous.boundaryTime.At?
    && ValidFeed(w.pages) && ValidFeed(w.current)
    && at < |w.pages| && (at == 0 ==> w.pages == w.current)
    && MidPass(w.db, monitorId, w.pages, previous, at, NewOf(previous, Flatten(w.pages[..at])))
    && w.reported == earlier + NewOf(previous, Flatten(w.pages[..at]))
    && Ledger(start, w, previous, earlier)
  }

  /** `p` came after the pass began, too new for the boundary the pass will leave to cover it. */
  ghost predicate Late(seen: seq<Listing>, previous: Watermark, p: Publication)
    requires previous.boundaryTime.At?
  {
    && NotOlder(p.1, seen) && p.1.epoch >= previous.boundaryTime.epoch
    && !Covered(previous, p) && p !in Publications(seen)
  }

  /** What has been reported, against the boundary `previous` and the feed. */
  ghost predicate Ledger(start: Watermark, w: World, previous: Watermark, earlier: seq<Listing>)
    requires previous.boundaryTime.At?
  {
    && (forall p: Publication :: Times(earlier, p) <= w.restarts + (if Covered(previous, p) then 1 else 0))
    && (forall p | p in Publications(w.reported) :: !Covered(start, p) && p in w.known)
    && Publications(Flatten(w.pages)) <= w.known && Publications(Flatten(w.current)) <= w.known
    && (forall id | id in previous.boundaryIds :: (id, previous.boundaryTime) in w.known)
    && (forall p | Covered(start, p) :: Covered(previous, p))
    && (forall p | p in Publications(Flatten(w.pages)) && Covered(previous, p) ::
          Covered(start, p) || p in Publications(earlier))
    && (forall p | p in Publications(Flatten(w.current)) ::
          p in Publications(Flatten(w.pages)) || Late(Flatten(w.pages), previous, p))
  }

  ghost predicate Inv(start: Watermark, w: World, monitorId: MonitorId) {
    exists previous: Watermark, at: nat, earlier: seq<Listing> :: InPass(start, w, monitorId, previous, at, earlier)
  }

  lemma PublicationsAppend(a: seq<Listing>, b: seq<Listing>)
    ensures Publications(a + b) == Publications(a) + Publications(b)
  {
    forall x | x in a || x in b ensures x in a + b {}
  }

  lemma {:induction false} TimesAppend(a: seq<Listing>, b: seq<Listing>, p: Publication)
    ensures Times(a + b, p) == Times(a, p) + Times(b, p)
  {
    if b == [] {
      assert a + b == a;
    } else {
      TimesAppend(a, b[..|b| - 1], p);
      assert (a + b)[..|a + b| - 1] == a + b[..|b| - 1];
    }
  }

  lemma {:induction false} NeverTimes(listings: seq<Listing>, p: Publication)
    ensures Times(listings, p) == 0 <==> p !in Publications(listings)
  {
    if listings != [] {
      var front, last := listings[..|listings| - 1], listings[|listings| - 1];
      NeverTimes(front, p);
      assert listings == front + [last];
      PublicationsAppend(front, [last]);
      assert last in [last];
    }
  }

  /** New listings are the uncovered ones. */
  lemma NewIsUncovered(w: Watermark, listings: seq<Listing>)
    requires w.boundaryTime.At? && Timed(listings)
    ensures forall p :: p in Publications(NewOf(w, listings)) <==> p in Publications(listings) && !Covered(w, p)
  {
    forall x | x in listings ensures IsNew(w, x) <==> !Covered(w, (x.listId, x.listTime)) {}
  }

  lemma {:induction false} NewOfOnce(w: Watermark, listings: seq<Listing>, p: Publication)
    requires w.boundaryTime.At? && DistinctIds(listings)
    ensures Times(NewOf(w, listings), p) <= 1
  {
    if listings != [] {
      var front, last := listings[..|listings| - 1], listings[|listings| - 1];
      NewOfOnce(w, front, p);
      var before := NewOf(w, front);
      if IsNew(w, last) && (last.listId, last.listTime) == p {
        assert NewOf(w, listings) == before + [last];
        forall x | x in before ensures x.listId != last.listId {
          assert x in front;
        }
        NeverTimes(before, p);
        TimesAppend(before, [last], p);
      } else if IsNew(w, last) {
        assert NewOf(w, listings) == before + [last];
      }
    }
  }

  /** How often the new listings of a part of the feed contain a publication. */
  lemma NewTimes(w: Watermark, part: seq<Listing>)
    requires w.boundaryTime.At? && Timed(part) && DistinctIds(part)
    ensures forall p: Publication ::
      && Times(NewOf(w, part), p) <= 1
      && (Times(NewOf(w, part), p) > 0 ==> p in Publications(part) && !Covered(w, p))
  {
    NewIsUncovered(w, part);
    forall p: Publication
      ensures Times(NewOf(w, part), p) <= 1
      ensures Times(NewOf(w, part), p) > 0 ==> p in Publications(part) && !Covered(w, p)
    {
      NewOfOnce(w, part, p);
      NeverTimes(NewOf(w, part), p);
    }
  }

  /** The boundary a pass leaves covers what the old one covered, and what the pass saw. */
  lemma NextBoundaryCovers(previous: Watermark, all: seq<Listing>, next: Watermark)
    requires previous.boundaryTime.At? && Timed(all)
    requires IsNextBoundary(previous, all, next)
    ensures next.boundaryTime.At?
    ensures forall p | Covered(previous, p) :: Covered(next, p)
    ensures forall p | p in Publications(all) :: Covered(next, p)
    ensures forall id | id in next.boundaryIds ::
      (id, next.boundaryTime) in Publications(all)
      || (next.boundaryTime == previous.boundaryTime && id in previous.boundaryIds)
  {
    var t := next.boundaryTime.epoch;
    forall p | Covered(previous, p) ensures Covered(next, p) {
      if p.1.epoch == t {
        assert p.0 in Remembered(previous, t);
        assert p.0 in Elements(next.boundaryIds);
      }
    }
    forall x | x in all ensures Covered(next, (x.listId, x.listTime)) {
      if x.listTime == At(t) {
        assert x.listId in IdsAt(all, t);
        assert x.listId in Elements(next.boundaryIds);
      }
    }
    forall id | id in next.boundaryIds
      ensures (id, next.boundaryTime) in Publications(all)
        || (next.boundaryTime == previous.boundaryTime && id in previous.boundaryIds)
    {
      assert id in Elements(next.boundaryIds);
      if id in IdsAt(all, t) {
        var x :| x in all && x.listTime == At(t) && x.listId == id;
        assert (x.listId, x.listTime) in Publications(all);
      }
    }
  }

  /** It does not cover what came too late for the pass. */
  lemma LateIsUncovered(previous: Watermark, seen: seq<Listing>, next: Watermark, p: Publication)
    requires previous.boundaryTime.At? && Timed(seen)
    requires IsNextBoundary(previous, seen, next) && Late(seen, previous, p)
    ensures !Covered(next, p)
  {
    NextBoundaryCovers(previous, seen, next);
  }

  // ----- the ledger through a run

  /** Reporting the new listings of the part of the feed that is read keeps the ledger. */
  lemma ReportPart(start: Watermark, w: World, w': World, previous: Watermark, earlier: seq<Listing>,
                   part: seq<Listing>, rest: seq<Listing>)
    requires previous.boundaryTime.At?
    requires ValidFeed(w.pages) && Flatten(w.pages) == part + rest
    requires Ledger(start, w, previous, earlier)
    requires Publications(earlier) <= Publications(w.reported)
    requires w'.pages == w.pages && w'.current == w.current && w'.known == w.known && w'.restarts == w.restarts
    requires w'.reported == earlier + NewOf(previous, part)
    ensures Ledger(start, w', previous, earlier)
  {
    hide NewOf, Sorted, Times, Late, Covered;
    var news := NewOf(previous, part);
    PartOfFeed(part, rest);
    NewIsUncovered(previous, part);
    PublicationsAppend(earlier, news);
    PublicationsAppend(part, rest);
  }

  lemma PartOfFeed(part: seq<Listing>, rest: seq<Listing>)
    requires Sorted(part + rest) && DistinctIds(part + rest)
    ensures Timed(part) && DistinctIds(part)
  {
    forall x | x in part ensures x in part + rest {}
    forall i, j | 0 <= i < j < |part| ensures part[i].listId != part[j].listId {
      assert part[i] == (part + rest)[i] && part[j] == (part + rest)[j];
    }
  }

  lemma ReportedTimes(start: Watermark, w: World, previous: Watermark, earlier: seq<Listing>, part: seq<Listing>)
    requires previous.boundaryTime.At? && Timed(part) && DistinctIds(part)
    requires Ledger(start, w, previous, earlier)
    requires w.reported == earlier + NewOf(previous, part)
    ensures forall p: Publication ::
      && Times(w.reported, p) <= w.restarts + 1
      && (!Covered(previous, p) && p !in Publications(part) ==> Times(w.reported, p) <= w.restarts)
  {
    NewTimes(previous, part);
    forall p: Publication
      ensures Times(w.reported, p) <= w.restarts + 1
        && (!Covered(previous, p) && p !in Publications(part) ==> Times(w.reported, p) <= w.restarts)
    {
      TimesAppend(earlier, NewOf(previous, part), p);
      hide NewOf, Times, Covered;
    }
  }

  /** Ending a pass makes everything reported so far `earlier`, and the feed of the next pass the current one. */
  lemma EndPass(start: Watermark, w: World, w': World, previous: Watermark, earlier: seq<Listing>, next: Watermark)
    requires previous.boundaryTime.At?
    requires ValidFeed(w.pages)
    requires Ledger(start, w, previous, earlier)
    requires w.reported == earlier + NewOf(previous, Flatten(w.pages))
    requires IsNextBoundary(previous, Flatten(w.pages), next)
    requires w' == w.(db := w'.db, selected := w'.selected, pages := w.current)
    ensures next.boundaryTime.At? && Ledger(start, w', next, w.reported)
    ensures forall p | p in Publications(Flatten(w.current)) ::
      Covered(next, p) <==> p in Publications(Flatten(w.pages))
    ensures forall p | p in Publications(Flatten(w.pages)) :: Covered(start, p) || p in Publications(w.reported)
  {
    hide NewOf, IsNextBoundary, Covered, Times, Late, Flatten;
    var all := Flatten(w.pages);
    NextBoundaryCovers(previous, all, next);
    NewIsUncovered(previous, all);
    PublicationsAppend(earlier, NewOf(previous, all));
    ReportedTimes(start, w, previous, earlier, all);
    forall p | p in Publications(Flatten(w.current)) ensures Covered(next, p) <==> p in Publications(all) {
      if p !in Publications(all) {
        LateIsUncovered(previous, all, next, p);
      }
    }
  }

  /** Restarting makes everything reported so far `earlier`, at the same boundary. */
  lemma RestartLedger(start: Watermark, w: World, w': World, previous: Watermark, earlier: seq<Listing>,
                      part: seq<Listing>, rest: seq<Listing>)
    requires previous.boundaryTime.At?
    requires ValidFeed(w.pages) && Flatten(w.pages) == part + rest
    requires Ledger(start, w, previous, earlier)
    requires w.reported == earlier + NewOf(previous, part)
    requires w' == w.(pages := w.current, restarts := w.restarts + 1)
    ensures Ledger(start, w', previous, w.reported)
  {
    hide NewOf, Times, Flatten, Sorted;
    PartOfFeed(part, rest);
    ReportedTimes(start, w, previous, earlier, part);
    PublicationsAppend(earlier, NewOf(previous, part));
    forall p | p in Publications(Flatten(w.current)) && Covered(previous, p)
      ensures Covered(start, p) || p in Publications(w.reported) {}
    hide Covered;
  }

  // ----- every event keeps the invariant

  /** A part of a sorted feed further up is not older. */
  lemma AboveIsNotOlder(above: seq<Listing>, behind: seq<Listing>, x: Listing)
    requires Sorted(above + behind) && DistinctIds(above + behind) && x in above
    ensures NotOlder(x.listTime, behind) && (x.listId, x.listTime) !in Publications(behind)
  {
    var all := above + behind;
    var i :| 0 <= i < |above| && above[i] == x;
    assert all[i] == x && x in all;
    forall y | y in behind ensures y.listId != x.listId && y.listTime.At? && y.listTime.epoch <= x.listTime.epoch {
      var j :| 0 <= j < |behind| && behind[j] == y;
      assert all[|above| + j] == y && y in all;
    }
  }

  /** A listing above the cursor after a change: the pass has read it, or it is late. */
  lemma AboveAfterChange(w: World, previous: Watermark, read: seq<Listing>, oldBehind: seq<Listing>,
                         above: seq<Listing>, behind: seq<Listing>, x: Listing)
    requires previous.boundaryTime.At?
    requires Sorted(above + behind) && DistinctIds(above + behind) && x in above
    requires ChangeAbove(w, previous, read, oldBehind, above)
    requires Publications(read) <= w.known
    requires forall id | id in previous.boundaryIds :: (id, previous.boundaryTime) in w.known
    requires forall p | p in Publications(Flatten(w.current)) ::
      p in Publications(read + oldBehind) || Late(read + oldBehind, previous, p)
    ensures var p := (x.listId, x.listTime); p in Publications(read + behind) || Late(read + behind, previous, p)
  {
    hide Sorted, DistinctIds;
    var p := (x.listId, x.listTime);
    PublicationsAppend(read, oldBehind);
    PublicationsAppend(read, behind);
    AboveIsNotOlder(above, behind, x);
    assert forall y :: y in read + behind <==> y in read || y in behind;
    assert forall y | y in read :: y in read + oldBehind;
  }

  lemma ChangeKeepsLedger(start: Watermark, w: World, e: Event, previous: Watermark, at: nat, earlier: seq<Listing>,
                          above: seq<Listing>)
    requires e.FeedChanges? && previous.boundaryTime.At?
    requires ValidFeed(e.current) && at < |e.pages| && at <= |w.pages| && e.pages[..at] == w.pages[..at]
    requires Ledger(start, w, previous, earlier)
    requires Flatten(e.current) == above + Flatten(e.pages[at..])
    requires ChangeBehind(w, previous, Flatten(w.pages[at..]), Flatten(e.pages[at..]))
    requires ChangeAbove(w, previous, Flatten(w.pages[..at]), Flatten(w.pages[at..]), above)
    ensures Ledger(start, w.(current := e.current, pages := e.pages, known := w.known + Publications(Flatten(e.current))),
                   previous, earlier)
  {
    hide Flatten, Sorted, DistinctIds, Times, Late, ChangeAbove;
    var (read, oldBehind, behind) := (Flatten(w.pages[..at]), Flatten(w.pages[at..]), Flatten(e.pages[at..]));
    FlattenSplit(w.pages, at);
    FlattenSplit(e.pages, at);
    PublicationsAppend(read, oldBehind);
    PublicationsAppend(read, behind);
    PublicationsAppend(above, behind);
    forall p | p in Publications(Flatten(e.pages)) && Covered(previous, p)
      ensures Covered(start, p) || p in Publications(earlier)
    {
      if p !in Publications(read) {
        var x :| x in behind && p == (x.listId, x.listTime);
        assert p in Publications(oldBehind) || IsArrival(w, previous, x);
      }
    }
    forall p | p in Publications(Flatten(e.current))
      ensures p in Publications(Flatten(e.pages)) || Late(Flatten(e.pages), previous, p)
    {
      if p !in Publications(behind) {
        var x :| x in above && p == (x.listId, x.listTime);
        AboveAfterChange(w, previous, read, oldBehind, above, behind, x);
      }
    }
  }

  lemma ChangeKeepsInv(start: Watermark, w: World, monitorId: MonitorId, e: Event)
    requires e.FeedChanges? && Inv(start, w, monitorId) && Possible(w, monitorId, e)
    ensures Inv(start, Next(w, monitorId, e), monitorId)
  {
    hide Flatten, Sorted, DistinctIds, ParseWatermark, ParseCatchupCheckpoint, Ledger, ChangeAbove, ChangeBehind, NewOf;
    var previous: Watermark, at: nat, earlier: seq<Listing> :| InPass(start, w, monitorId, previous, at, earlier);
    assert at == Position(w, monitorId) && CurrentBoundary(w, monitorId).value == previous;
    var above: seq<Listing> :|
      && Flatten(e.current) == above + Flatten(e.pages[at..])
      && ChangeBehind(w, previous, Flatten(w.pages[at..]), Flatten(e.pages[at..]))
      && ChangeAbove(w, previous, Flatten(w.pages[..at]), Flatten(w.pages[at..]), above);
    ChangeKeepsLedger(start, w, e, previous, at, earlier, above);
    assert InPass(start, Next(w, monitorId, e), monitorId, previous, at, earlier);
  }

  /** What a run that completes its pass has done. */
  ghost predicate PassEnds(start: Watermark, w: World, w': World, monitorId: MonitorId, view: seq<seq<Listing>>) {
    && CurrentBoundary(w', monitorId).Ok?
    && (forall p | p in Publications(Flatten(view)) :: Covered(start, p) || p in Publications(w'.reported))
    && forall p | p in Publications(Flatten(w.current)) ::
         Covered(CurrentBoundary(w', monitorId).value, p) <==> p in Publications(Flatten(view))
  }

  /** A committed run after which `at` pages of `w.pages` are done, whatever was done before. */
  lemma CommittedKeepsInv(start: Watermark, w: World, w': World, monitorId: MonitorId, previous: Watermark,
                          earlier: seq<Listing>, outcome: Traversal, at: nat, reported: seq<Listing>)
    requires previous.boundaryTime.At? && ValidFeed(w.pages) && ValidFeed(w.current)
    requires Ledger(start, w, previous, earlier) && Publications(earlier) <= Publications(w.reported)
    requires w'.reported == earlier + reported
    requires w' == w.(db := w'.db, selected := w'.selected, reported := w'.reported,
                      pages := if outcome.Complete? then w.current else w.pages)
    requires !outcome.Failed?
    requires outcome.Complete? ==> PassDone(w'.db, monitorId, w.pages, previous, outcome.nextWatermark, reported)
    requires outcome.Incomplete? ==> at > 0 && MidPass(w'.db, monitorId, w.pages, previous, at, reported)
    ensures Inv(start, w', monitorId)
    ensures outcome.Complete? ==> PassEnds(start, w, w', monitorId, w.pages)
  {
    hide Ledger, Sorted, DistinctIds, NewOf, Flatten, IsNextBoundary, ParseWatermark, ParseCatchupCheckpoint,
      CheckpointFor, Covered, Publications;
    var middle := w.(reported := w'.reported);
    if outcome.Incomplete? {
      FlattenSplit(w.pages, at);
      ReportPart(start, w, w', previous, earlier, Flatten(w.pages[..at]), Flatten(w.pages[at..]));
      assert InPass(start, w', monitorId, previous, at, earlier);
    } else {
      var next := outcome.nextWatermark;
      assert Flatten(w.pages) + [] == Flatten(w.pages);
      ReportPart(start, w, middle, previous, earlier, Flatten(w.pages), []);
      EndPass(start, middle, w', previous, earlier, next);
      assert w'.pages[..0] == [] && Flatten([]) == [] && NewOf(next, []) == [] by {
        FlattenNothing();
        NothingNew(next, []);
      }
      assert w'.reported + [] == w'.reported;
      assert InPass(start, w', monitorId, next, 0, w'.reported);
    }
  }

  lemma RunKeepsInv(start: Watermark, w: World, monitorId: MonitorId, e: Event)
    requires e.RunMonitor? && Inv(start, w, monitorId) && Possible(w, monitorId, e)
    ensures Inv(start, Next(w, monitorId, e), monitorId)
    ensures RunOn(w, monitorId, e).outcome.Ok? && RunOn(w, monitorId, e).outcome.value.Complete? ==>
      PassEnds(start, w, Next(w, monitorId, e), monitorId, View(w, e))
  {
    hide Run, Ledger, Sorted, DistinctIds, NewOf, Flatten, IsNextBoundary, ParseWatermark, ParseCatchupCheckpoint,
      CheckpointFor, Select, Covered, Publications, PassEnds;
    var previous: Watermark, at: nat, earlier: seq<Listing> :| InPass(start, w, monitorId, previous, at, earlier);
    var r := RunOn(w, monitorId, e);
    var w' := Next(w, monitorId, e);
    if e.runId.Some? && e.runId.value !in w.db.runs {
      RunWithoutRow(w.db, monitorId, e.runId, FixedFeed(w.pages), FixedFeed(w.current), e.maxPages, e.select);
      FailedRunChangesNothing(w.db, monitorId, e.runId, FixedFeed(w.pages), FixedFeed(w.current), e.maxPages, e.select);
      assert w' == w;
    } else {
      var reported := NewOf(previous, Flatten(w.pages[..at]));
      RunAdvancesPass(w.db, monitorId, w.pages, previous, at, reported, e.runId,
                      FixedFeed(w.current), e.maxPages, e.select);
      PublicationsAppend(earlier, reported);
      var now := reported + r.outcome.value.newListings;
      assert w'.reported == earlier + now;
      CommittedKeepsInv(start, w, w', monitorId, previous, earlier, r.outcome.value, at + e.maxPages, now);
    }
  }

  lemma RestartKeepsInv(start: Watermark, w: World, monitorId: MonitorId, e: Event)
    requires e.RestartedRun? && Inv(start, w, monitorId) && Possible(w, monitorId, e)
    ensures Inv(start, Next(w, monitorId, e), monitorId)
    ensures RunOn(w, monitorId, e).outcome.Ok? && RunOn(w, monitorId, e).outcome.value.Complete? ==>
      PassEnds(start, w, Next(w, monitorId, e), monitorId, View(w, e))
  {
    hide Run, Traverse, Ledger, Sorted, DistinctIds, NewOf, Flatten, IsNextBoundary, ParseWatermark,
      ParseCatchupCheckpoint, CheckpointFor, Select, Covered, Publications, PassEnds;
    var previous: Watermark, at: nat, earlier: seq<Listing> :| InPass(start, w, monitorId, previous, at, earlier);
    var r := RunOn(w, monitorId, e);
    var w' := Next(w, monitorId, e);
    if e.runId.Some? && e.runId.value !in w.db.runs {
      RunWithoutRow(w.db, monitorId, e.runId, e.first, FixedFeed(w.current), e.maxPages, e.select);
      FailedRunChangesNothing(w.db, monitorId, e.runId, e.first, FixedFeed(w.current), e.maxPages, e.select);
      assert w' == w;
    } else {
      var top := w.(pages := w.current, restarts := w.restarts + 1);
      FlattenSplit(w.pages, at);
      RestartLedger(start, w, top, previous, earlier, Flatten(w.pages[..at]), Flatten(w.pages[at..]));
      RestartBeginsPass(w.db, monitorId, w.current, previous, CurrentCheckpoint(w, monitorId).value, e.runId, e.first,
                        e.maxPages, e.select);
      CommittedKeepsInv(start, top, w', monitorId, previous, w.reported, r.outcome.value, e.maxPages,
                        r.outcome.value.newListings);
      SameEnds(start, top, w, w', monitorId);
    }
  }

  lemma SameEnds(start: Watermark, top: World, w: World, w': World, monitorId: MonitorId)
    requires top.current == w.current && top.pages == w.current
    ensures PassEnds(start, top, w', monitorId, top.pages) ==> PassEnds(start, w, w', monitorId, w.current)
  {
  }

  lemma RunWithoutRow(db: Tables, monitorId: MonitorId, runId: Option<RunId>, first: Adapter,
                      second: Adapter, maxPages: int, select: Selector)
    requires runId.Some? && runId.value !in db.runs
    ensures Run(db, monitorId, runId, first, second, maxPages, select).outcome.Err?
  {
    hide TraverseRecovering, InsertMatches, Select, UpsertListings, AdvanceCursor;
  }

  lemma {:induction false} InvHolds(w: World, monitorId: MonitorId, start: Watermark, events: seq<Event>)
    requires Starts(w, monitorId, start)
    requires AllPossible(w, monitorId, events)
    ensures Inv(start, Play(w, monitorId, events), monitorId)
  {
    hide Inv, Possible, Starts;
    if events == [] {
      StartsInv(w, monitorId, start);
    } else {
      InvHolds(w, monitorId, start, events[..|events| - 1]);
      var before := Play(w, monitorId, events[..|events| - 1]);
      var e := events[|events| - 1];
      match e {
        case RunMonitor(_, _, _) => RunKeepsInv(start, before, monitorId, e);
        case RestartedRun(_, _, _, _) => RestartKeepsInv(start, before, monitorId, e);
        case FeedChanges(_, _) => ChangeKeepsInv(start, before, monitorId, e);
        case BrokenRun(runId, first, second, maxPages, select) => BrokenKeeps(before, monitorId, e);
      }
    }
  }

  lemma BrokenKeeps(w: World, monitorId: MonitorId, e: Event)
    requires e.BrokenRun? && Possible(w, monitorId, e)
    ensures Next(w, monitorId, e) == w
  {
    FailedRunChangesNothing(w.db, monitorId, e.runId, e.first, e.second, e.maxPages, e.select);
  }

  lemma StartsInv(w: World, monitorId: MonitorId, start: Watermark)
    requires Starts(w, monitorId, start)
    ensures Inv(start, w, monitorId)
  {
    hide Sorted, DistinctIds, ParseWatermark, ParseCatchupCheckpoint;
    assert w.pages[..0] == [] && Flatten([]) == [] && NewOf(start, []) == [];
    assert InPass(start, w, monitorId, start, 0, []);
  }

  // ----- the theorems

  /**
   * Over any history a publication is reported at most once more than there were restarts, so exactly
   * at most once without restarts; none that the starting boundary covered is reported, and nothing
   * that the feed never held.
   */
  lemma NothingReportedTwice(w: World, monitorId: MonitorId, start: Watermark, events: seq<Event>, p: Publication)
    requires Starts(w, monitorId, start)
    requires AllPossible(w, monitorId, events)
    ensures var after := Play(w, monitorId, events);
      && Times(after.reported, p) <= 1 + after.restarts
      && (p in Publications(after.reported) ==> p in after.known && !Covered(start, p))
  {
    hide Times, NewOf, Flatten, MidPass, Covered, Late, Publications, Sorted, DistinctIds;
    InvHolds(w, monitorId, start, events);
    var after := Play(w, monitorId, events);
    var previous: Watermark, at: nat, earlier: seq<Listing> :| InPass(start, after, monitorId, previous, at, earlier);
    FlattenSplit(after.pages, at);
    PartOfFeed(Flatten(after.pages[..at]), Flatten(after.pages[at..]));
    ReportedTimes(start, after, previous, earlier, Flatten(after.pages[..at]));
  }

  /**
   * When a run completes a pass, what the pass saw splits exactly into what the starting boundary
   * covered and what was reported, in this pass or an earlier one; and of the feed as it is then the
   * new boundary leaves uncovered exactly what the pass did not see, the arrivals, for the next pass.
   */
  lemma NothingSkipped(w: World, monitorId: MonitorId, start: Watermark, events: seq<Event>, e: Event)
    requires Starts(w, monitorId, start)
    requires AllPossible(w, monitorId, events)
    requires e.RunMonitor? || e.RestartedRun?
    requires var before := Play(w, monitorId, events);
      && Possible(before, monitorId, e)
      && RunOn(before, monitorId, e).outcome.Ok? && RunOn(before, monitorId, e).outcome.value.Complete?
    ensures var before := Play(w, monitorId, events);
      var after := Next(before, monitorId, e);
      var seen := Publications(Flatten(View(before, e)));
      && (forall p | p in seen :: p in Publications(after.reported) <==> !Covered(start, p))
      && CurrentBoundary(after, monitorId).Ok?
      && forall p | p in Publications(Flatten(after.current)) ::
           Covered(CurrentBoundary(after, monitorId).value, p) <==> p in seen
  {
    hide Run, Traverse, Sorted, DistinctIds, NewOf, Flatten, MidPass, ValidFeed, Covered, Publications, Times, Late,
      Possible, CurrentBoundary;
    InvHolds(w, monitorId, start, events);
    var before := Play(w, monitorId, events);
    if e.RunMonitor? {
      RunKeepsInv(start, before, monitorId, e);
    } else {
      RestartKeepsInv(start, before, monitorId, e);
    }
  }

  /** So a pass that begins where another ended has as its new listings exactly the arrivals. */
  lemma NextPassTakesArrivals(w: World, monitorId: MonitorId, start: Watermark, events: seq<Event>, e: Event)
    requires Starts(w, monitorId, start)
    requires AllPossible(w, monitorId, events)
    requires e.RunMonitor? || e.RestartedRun?
    requires var before := Play(w, monitorId, events);
      && Possible(before, monitorId, e)
      && RunOn(before, monitorId, e).outcome.Ok? && RunOn(before, monitorId, e).outcome.value.Complete?
    ensures var before := Play(w, monitorId, events);
      var after := Next(before, monitorId, e);
      && CurrentBoundary(after, monitorId).Ok? && CurrentBoundary(after, monitorId).value.boundaryTime.At?
      && Publications(NewOf(CurrentBoundary(after, monitorId).value, Flatten(after.current)))
         == Publications(Flatten(after.current)) - Publications(Flatten(View(before, e)))
  {
    hide Run, Traverse, Sorted, NewOf, Flatten, Covered, Times, Late, Possible, RunOn, Starts, AllPossible, Play, Next,
      CurrentBoundary, View;
    var before := Play(w, monitorId, events);
    var after := Next(before, monitorId, e);
    NothingSkipped(w, monitorId, start, events, e);
    InvHolds(w, monitorId, start, events);
    if e.RunMonitor? {
      RunKeepsInv(start, before, monitorId, e);
    } else {
      RestartKeepsInv(start, before, monitorId, e);
    }
    FeedIsTimed(start, after, monitorId);
    NewIsUncovered(CurrentBoundary(after, monitorId).value, Flatten(after.current));
  }

  lemma FeedIsTimed(start: Watermark, w: World, monitorId: MonitorId)
    requires Inv(start, w, monitorId)
    ensures Timed(Flatten(w.current))
    ensures CurrentBoundary(w, monitorId).Ok? && CurrentBoundary(w, monitorId).value.boundaryTime.At?
  {
    hide Flatten, NewOf, Ledger;
  }

  /** What a pass has before it stays before it as long as the feed holds it: no change makes the pass miss it. */
  lemma PresentStaysInView(w: World, monitorId: MonitorId, start: Watermark, events: seq<Event>, e: Event, p: Publication)
    requires Starts(w, monitorId, start)
    requires AllPossible(w, monitorId, events)
    requires e.FeedChanges? && Possible(Play(w, monitorId, events), monitorId, e)
    requires p in Publications(Flatten(Play(w, monitorId, events).pages)) && p in Publications(Flatten(e.current))
    ensures p in Publications(Flatten(Next(Play(w, monitorId, events), monitorId, e).pages))
  {
    hide Sorted, DistinctIds, Late, Flatten, Times, NewOf, MidPass, Starts, AllPossible, Play;
    InvHolds(w, monitorId, start, events);
    StaysInView(Play(w, monitorId, events), monitorId, e, p);
  }

  lemma StaysInView(w: World, monitorId: MonitorId, e: Event, p: Publication)
    requires e.FeedChanges? && Possible(w, monitorId, e)
    requires Publications(Flatten(w.pages)) <= w.known
    requires p in Publications(Flatten(w.pages)) && p in Publications(Flatten(e.current))
    ensures p in Publications(Flatten(e.pages))
  {
    hide Flatten, Sorted, DistinctIds;
    var at := Position(w, monitorId);
    var boundary := CurrentBoundary(w, monitorId).value;
    var above: seq<Listing> :|
      && Flatten(e.current) == above + Flatten(e.pages[at..])
      && ChangeBehind(w, boundary, Flatten(w.pages[at..]), Flatten(e.pages[at..]))
      && ChangeAbove(w, boundary, Flatten(w.pages[..at]), Flatten(w.pages[at..]), above);
    FlattenSplit(w.pages, at);
    FlattenSplit(e.pages, at);
    PublicationsAppend(Flatten(w.pages[..at]), Flatten(w.pages[at..]));
    PublicationsAppend(Flatten(e.pages[..at]), Flatten(e.pages[at..]));
    PublicationsAppend(above, Flatten(e.pages[at..]));
  }

  // ----- match rows

  lemma {:induction false} InsertMatchesAppend(table: map<(MonitorId, ListingId), Selection>, monitorId: MonitorId,
                                               a: seq<SelectedListing>, b: seq<SelectedListing>)
    ensures InsertMatches(table, monitorId, a + b) == InsertMatches(InsertMatches(table, monitorId, a), monitorId, b)
  {
    if b == [] {
      assert a + b == a;
    } else {
      InsertMatchesAppend(table, monitorId, a, b[..|b| - 1]);
      assert (a + b)[..|a + b| - 1] == a + b[..|b| - 1];
    }
  }

  lemma {:induction false} SelectFrom(select: Selector, listings: seq<Listing>)
    ensures forall item :: item in Select(select, listings) <==>
      item.listing in listings && select(item.listing) == Some(item.selection)
  {
    if listings != [] {
      SelectFrom(select, listings[..|listings| - 1]);
      assert listings == listings[..|listings| - 1] + [listings[|listings| - 1]];
    }
  }

  lemma {:induction false} MatchesAreSelections(w: World, monitorId: MonitorId, start: Watermark, events: seq<Event>)
    requires Starts(w, monitorId, start)
    requires AllPossible(w, monitorId, events)
    ensures var after := Play(w, monitorId, events);
      && after.db.matches == InsertMatches(w.db.matches, monitorId, after.selected)
      && forall item | item in after.selected :: item.listing in after.reported
  {
    hide Starts, Run, InsertMatches, Select;
    if events == [] {
      NoSelections(w, monitorId, start);
    } else {
      MatchesAreSelections(w, monitorId, start, events[..|events| - 1]);
      var before := Play(w, monitorId, events[..|events| - 1]);
      var e := events[|events| - 1];
      if e.BrokenRun? {
        BrokenKeeps(before, monitorId, e);
      } else if !e.FeedChanges? {
        var first := if e.RunMonitor? then FixedFeed(before.pages) else e.first;
        RunWrites(before.db, monitorId, e.runId, first, FixedFeed(before.current), e.maxPages, e.select);
        FailedRunChangesNothing(before.db, monitorId, e.runId, first, FixedFeed(before.current), e.maxPages, e.select);
        var r := RunOn(before, monitorId, e);
        if r.outcome.Ok? {
          var more := Select(e.select, r.outcome.value.newListings);
          SelectFrom(e.select, r.outcome.value.newListings);
          InsertMatchesAppend(w.db.matches, monitorId, before.selected, more);
        }
      }
    }
  }

  lemma NoSelections(w: World, monitorId: MonitorId, start: Watermark)
    requires Starts(w, monitorId, start)
    ensures w.selected == [] && InsertMatches(w.db.matches, monitorId, w.selected) == w.db.matches
  {
  }

  /**
   * Over any history an existing match row never changes, rows of other monitors are never touched,
   * and a new row exists exactly for the ids of reported listings that were selected, holding what
   * the first such selection said.
   */
  lemma MatchRowsAreStable(w: World, monitorId: MonitorId, start: Watermark, events: seq<Event>)
    requires Starts(w, monitorId, start)
    requires AllPossible(w, monitorId, events)
    ensures var after := Play(w, monitorId, events);
      forall key ::
        && (key in w.db.matches ==> key in after.db.matches && after.db.matches[key] == w.db.matches[key])
        && (key in after.db.matches && key !in w.db.matches ==>
              key.0 == monitorId && FirstSelected(after.selected, key.1, after.db.matches[key]))
        && (key !in w.db.matches ==>
              (key in after.db.matches <==>
                 key.0 == monitorId && exists item | item in after.selected :: item.listing.listId == key.1))
  {
    hide Starts, AllPossible, Play, InsertMatches, FirstSelected;
    MatchesAreSelections(w, monitorId, start, events);
    MatchesAreWritten(w.db.matches, monitorId, Play(w, monitorId, events).selected);
  }

  // ----- listing rows

  lemma {:induction false} RunStores(db: Tables, monitorId: MonitorId, runId: Option<RunId>, first: Adapter,
                                     second: Adapter, maxPages: int, select: Selector)
    ensures var r := Run(db, monitorId, runId, first, second, maxPages, select);
      if r.outcome.Err? then r.db == db else
        && !r.outcome.value.Failed?
        && ListingsWritten(db.listings, r.outcome.value.newListings, r.db.listings)
        && MatchesWritten(db.matches, monitorId, Select(select, r.outcome.value.newListings), r.db.matches)
        && RunWritten(db, runId, monitorId, if r.outcome.value.Incomplete? then Catchup else Success,
                      |r.outcome.value.newListings|, |Select(select, r.outcome.value.newListings)|, r.db)
  {
    hide TraverseRecovering, CommitRun, ListingsWritten, MatchesWritten, RunWritten, OtherCursorsKept,
      ParseWatermark, ParseCatchupCheckpoint, Select;
    if monitorId in db.cursors {
      var row := db.cursors[monitorId];
      if ParseWatermark(row).Ok? && ParseCatchupCheckpoint(row).Ok? {
        var traversal :=
          TraverseRecovering(first, second, ParseWatermark(row).value, maxPages, ParseCatchupCheckpoint(row).value).outcome;
        if !traversal.Failed? {
          CommitRunWrites(db, RunCommit(monitorId, runId, row.updatedAt, traversal.newListings,
                                        Select(select, traversal.newListings), traversal));
        }
      }
    }
  }

  lemma NextStores(w: World, monitorId: MonitorId, e: Event)
    requires forall key | key in w.db.matches :: key.1 in w.db.listings
    requires forall x | x in w.reported :: x.listId in w.db.listings
    ensures var after := Next(w, monitorId, e);
      && (forall id | id in w.db.listings :: id in after.db.listings)
      && (forall key | key in after.db.matches :: key.1 in after.db.listings)
      && (forall x | x in after.reported :: x.listId in after.db.listings)
  {
    hide Run, Select;
    if !e.FeedChanges? {
      var first := if e.RunMonitor? then FixedFeed(w.pages) else e.first;
      var second := if e.BrokenRun? then e.second else FixedFeed(w.current);
      RunStores(w.db, monitorId, e.runId, first, second, e.maxPages, e.select);
      var r := RunOn(w, monitorId, e);
      if r.outcome.Ok? {
        SelectFrom(e.select, r.outcome.value.newListings);
      }
    }
  }

  /**
   * Over any history a stored listing stays, every reported listing is stored, and no match is without
   * its listing.
   */
  lemma {:induction false} EverythingReportedIsStored(w: World, monitorId: MonitorId, events: seq<Event>)
    requires forall key | key in w.db.matches :: key.1 in w.db.listings
    requires forall x | x in w.reported :: x.listId in w.db.listings
    ensures var after := Play(w, monitorId, events);
      && (forall id | id in w.db.listings :: id in after.db.listings)
      && (forall key | key in after.db.matches :: key.1 in after.db.listings)
      && (forall x | x in after.reported :: x.listId in after.db.listings)
  {
    hide Next;
    if events != [] {
      EverythingReportedIsStored(w, monitorId, events[..|events| - 1]);
      NextStores(Play(w, monitorId, events[..|events| - 1]), monitorId, events[|events| - 1]);
    }
  }

  // ----- where a history starts

  /**
   * Committing a cold start starts a history. It covers the whole feed, or, when the first page was
   * empty, exactly what is older than the starting time.
   */
  lemma ColdStartBegins(db: Tables, input: ColdStartCommit, pages: seq<seq<Listing>>, maxPages: nat, startedAt: int)
    requires maxPages >= 1 && ValidFeed(pages)
    requires var baseline := ColdStart.Traverse(FixedFeed(pages), maxPages, startedAt);
      baseline.Baseline? && input.nextWatermark == baseline.nextWatermark
    requires CommitColdStart(db, input).Ok?
    requires input.monitorId in db.cursors ==> ParseCatchupCheckpoint(db.cursors[input.monitorId]) == Ok(None)
    ensures var w := World(CommitColdStart(db, input).value, pages, pages, [], [], Publications(Flatten(pages)), 0);
      && Starts(w, input.monitorId, input.nextWatermark)
      && forall p | p in Publications(Flatten(pages)) ::
           Covered(input.nextWatermark, p) <==> pages[0] != [] || (p.1.At? && p.1.epoch < startedAt)
  {
    hide Sorted, DistinctIds, ColdStart.Traverse, CommitColdStart, ParseWatermark, ParseCatchupCheckpoint, Flatten;
    var all := Flatten(pages);
    var boundary := input.nextWatermark;
    AheadIsFlat(pages, 0, |pages|);
    assert pages[0..|pages|] == pages && pages[..0] == [];
    FlattenNothing();
    if pages[0] == [] {
      ColdStart.ColdStartOnEmptyFirstPage(FixedFeed(pages), maxPages, startedAt);
      assert boundary == Watermark(At(startedAt), []);
    } else {
      ColdStart.ColdStartClosesTopTie(pages, maxPages, startedAt);
      TopTiePublications(all, boundary);
    }
    NothingNew(boundary, []);
    ColdStartRow(db, input);
    assert MidPass(CommitColdStart(db, input).value, input.monitorId, pages, boundary, 0, []);
  }

  lemma ColdStartRow(db: Tables, input: ColdStartCommit)
    requires CommitColdStart(db, input).Ok? && input.nextWatermark.boundaryTime.At?
    requires input.monitorId in db.cursors ==> ParseCatchupCheckpoint(db.cursors[input.monitorId]) == Ok(None)
    ensures var after := CommitColdStart(db, input).value;
      && input.monitorId in after.monitors && input.monitorId in after.cursors
      && ParseWatermark(after.cursors[input.monitorId]) == Ok(input.nextWatermark)
      && ParseCatchupCheckpoint(after.cursors[input.monitorId]) == Ok(None)
  {
    hide UpsertListings, ShouldResetMonitorCursor;
  }

  lemma TopTiePublications(all: seq<Listing>, boundary: Watermark)
    requires Sorted(all) && all != [] && all[0].listTime.At?
    requires boundary.boundaryTime == all[0].listTime
    requires Elements(boundary.boundaryIds) == IdsAt(all, all[0].listTime.epoch)
    ensures forall p | p in Publications(all) :: Covered(boundary, p)
    ensures forall id | id in boundary.boundaryIds :: (id, boundary.boundaryTime) in Publications(all)
  {
    forall x | x in all ensures Covered(boundary, (x.listId, x.listTime)) {
      var k :| 0 <= k < |all| && all[k] == x;
      assert x.listTime == all[0].listTime ==> x.listId in IdsAt(all, all[0].listTime.epoch);
      assert x.listTime == all[0].listTime ==> x.listId in Elements(boundary.boundaryIds);
    }
    forall id | id in boundary.boundaryIds ensures (id, boundary.boundaryTime) in Publications(all) {
      assert id in Elements(boundary.boundaryIds);
      var x :| x in all && x.listTime == At(all[0].listTime.epoch) && x.listId == id;
      assert (x.listId, x.listTime) in Publications(all);
    }
  }
}

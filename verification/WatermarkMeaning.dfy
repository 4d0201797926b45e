/**
 * What a traversal means on a newest-first source, whatever the page boundaries are: which
 * listings it reports, which boundary it leaves, and what a checkpoint stands for.
 */
module WatermarkMeaning {
  import opened Basics
  import opened Feed
  import opened WatermarkTraversal

  /** Newer than the boundary, or on the boundary without being remembered. */
  predicate IsNew(previous: Watermark, x: Listing)
    requires previous.boundaryTime.At?
  {
    x.listTime.At? &&
    (x.listTime.epoch > previous.boundaryTime.epoch
     || (x.listTime == previous.boundaryTime && x.listId !in previous.boundaryIds))
  }

  function NewOf(previous: Watermark, listings: seq<Listing>): (r: seq<Listing>)
    requires previous.boundaryTime.At?
    ensures forall x :: x in r <==> x in listings && IsNew(previous, x)
  {
    if listings == [] then [] else
      var before := NewOf(previous, listings[..|listings| - 1]);
      var last := listings[|listings| - 1];
      assert listings == listings[..|listings| - 1] + [last];
      if IsNew(previous, last) then before + [last] else before
  }

  /** The remembered ids that stay relevant when the boundary is `epoch`. */
  function Remembered(previous: Watermark, epoch: int): set<ListingId> {
    if previous.boundaryTime == At(epoch) then Elements(previous.boundaryIds) else {}
  }

  /**
   * `next` is the boundary after meeting `listings`: its time is the latest of the old boundary
   * and all the listings, its ids are exactly those met at that time, together with the old ids
   * when the time did not move.
   */
  ghost predicate IsNextBoundary(previous: Watermark, listings: seq<Listing>, next: Watermark)
    requires previous.boundaryTime.At?
  {
    && next.boundaryTime.At?
    && var t := next.boundaryTime.epoch;
    && t >= previous.boundaryTime.epoch
    && (forall x | x in listings && x.listTime.At? :: x.listTime.epoch <= t)
    && (t == previous.boundaryTime.epoch || exists x | x in listings :: x.listTime == At(t))
    && Elements(next.boundaryIds) == IdsAt(listings, t) + Remembered(previous, t)
  }

  /** Same time and same ids; the order of the ids is not observable. */
  ghost predicate SameBoundary(a: Watermark, b: Watermark) {
    a.boundaryTime == b.boundaryTime && Elements(a.boundaryIds) == Elements(b.boundaryIds)
  }

  lemma NextBoundaryUnique(previous: Watermark, listings: seq<Listing>, a: Watermark, b: Watermark)
    requires previous.boundaryTime.At?
    requires IsNextBoundary(previous, listings, a) && IsNextBoundary(previous, listings, b)
    ensures SameBoundary(a, b)
  {
  }

  lemma {:induction false} NewOfAppend(previous: Watermark, a: seq<Listing>, b: seq<Listing>)
    requires previous.boundaryTime.At?
    ensures NewOf(previous, a + b) == NewOf(previous, a) + NewOf(previous, b)
  {
    if b == [] {
      assert a + b == a;
    } else {
      NewOfAppend(previous, a, b[..|b| - 1]);
      assert (a + b)[..|a + b| - 1] == a + b[..|b| - 1];
    }
  }

  lemma {:induction false} NothingNew(previous: Watermark, listings: seq<Listing>)
    requires previous.boundaryTime.At?
    requires forall x | x in listings :: !IsNew(previous, x)
    ensures NewOf(previous, listings) == []
  {
    if listings != [] {
      NothingNew(previous, listings[..|listings| - 1]);
    }
  }

  lemma IdsAtAppend(a: seq<Listing>, b: seq<Listing>, epoch: int)
    ensures IdsAt(a + b, epoch) == IdsAt(a, epoch) + IdsAt(b, epoch)
  {
    forall x | x in a || x in b ensures x in a + b {}
  }

  /** `scan` is where a traversal stands after the uncrossed listings `done`, this run's or earlier ones. */
  ghost predicate Represents(previous: Watermark, done: seq<Listing>, scan: Scan)
    requires previous.boundaryTime.At?
  {
    && Sorted(done)
    && (forall x | x in done :: x.listTime.epoch >= previous.boundaryTime.epoch)
    && (scan.maximumEpoch.Some? ==> scan.maximumEpoch.value >= previous.boundaryTime.epoch)
    && IsNextBoundary(previous, done, AccumulatedWatermark(previous, scan))
    && LastSeen(done, if scan.previousObservation.None? then None else
                        var seen := scan.previousObservation.value.observation;
                        Some(LastObservation(seen.listId, seen.listTime)))
    && (scan.previousObservation.Some? ==>
          scan.previousObservation.value.observation.listTime == At(scan.previousObservation.value.epoch))
  }

  ghost predicate LastSeen(done: seq<Listing>, last: Option<LastObservation>) {
    if done == [] then last.None?
    else last == Some(LastObservation(done[|done| - 1].listId, done[|done| - 1].listTime))
  }

  /** `saved` stands for the uncrossed listings `done`. */
  ghost predicate CheckpointFor(previous: Watermark, done: seq<Listing>, saved: Checkpoint)
    requires previous.boundaryTime.At?
  {
    && Sorted(done)
    && (forall x | x in done :: x.listTime.epoch >= previous.boundaryTime.epoch)
    && IsNextBoundary(previous, done, saved.pendingWatermark)
    && LastSeen(done, saved.lastObservation)
  }

  lemma CheckpointResumes(previous: Watermark, done: seq<Listing>, saved: Checkpoint)
    requires previous.boundaryTime.At?
    requires CheckpointFor(previous, done, saved)
    ensures InitialScan(Some(saved)).Ok?
    ensures Represents(previous, done, InitialScan(Some(saved)).value)
  {
    var scan := InitialScan(Some(saved)).value;
    var pending := saved.pendingWatermark;
    var result := AccumulatedWatermark(previous, scan);
    assert Elements(previous.boundaryIds + pending.boundaryIds)
        == Elements(previous.boundaryIds) + Elements(pending.boundaryIds);
    assert IsNextBoundary(previous, done, result);
  }

  lemma FreshScanRepresents(previous: Watermark)
    requires previous.boundaryTime.At?
    ensures Represents(previous, [], InitialScan(None).value)
  {
  }

  // ----- one listing

  /** The accumulated boundary as a time and a set of ids. */
  lemma Accumulated(previous: Watermark, scan: Scan)
    requires previous.boundaryTime.At?
    ensures var w := AccumulatedWatermark(previous, scan);
      if scan.maximumEpoch.None? || scan.maximumEpoch.value < previous.boundaryTime.epoch then w == previous
      else w.boundaryTime == At(scan.maximumEpoch.value)
           && Elements(w.boundaryIds)
              == Elements(scan.idsAtMaximum) + Remembered(previous, scan.maximumEpoch.value)
  {
    ElementsConcat(previous.boundaryIds, scan.idsAtMaximum);
  }

  /** Meeting one more listing moves the boundary as the definition says. */
  lemma ExtendBoundary(previous: Watermark, done: seq<Listing>, w: Watermark, x: Listing, next: Watermark)
    requires previous.boundaryTime.At? && x.listTime.At?
    requires IsNextBoundary(previous, done, w)
    requires next.boundaryTime.At?
    requires x.listTime.epoch > w.boundaryTime.epoch ==>
      next.boundaryTime == x.listTime && Elements(next.boundaryIds) == {x.listId}
    requires x.listTime.epoch == w.boundaryTime.epoch ==>
      next.boundaryTime == w.boundaryTime
      && Elements(next.boundaryIds) == Elements(w.boundaryIds) + {x.listId}
    requires x.listTime.epoch < w.boundaryTime.epoch ==>
      next.boundaryTime == w.boundaryTime && Elements(next.boundaryIds) == Elements(w.boundaryIds)
    ensures IsNextBoundary(previous, done + [x], next)
  {
    var r := next.boundaryTime.epoch;
    assert forall y :: y in done + [x] <==> y in done || y == x;
    IdsAtAppend(done, [x], r);
    IdsAtOne(x, r);
    if x.listTime.epoch > w.boundaryTime.epoch {
      assert IdsAt(done, r) == {};
    } else if r != previous.boundaryTime.epoch {
      var y :| y in done && y.listTime == At(r);
      assert y in done + [x];
    }
  }

  lemma MaximumStep(previous: Watermark, done: seq<Listing>, scan: Scan, x: Listing, noted: Scan)
    requires previous.boundaryTime.At?
    requires Represents(previous, done, scan)
    requires Sorted(done + [x])
    requires noted.maximumEpoch == NoteMaximum(scan, x.listTime.epoch, x.listId).maximumEpoch
    requires noted.idsAtMaximum == NoteMaximum(scan, x.listTime.epoch, x.listId).idsAtMaximum
    ensures IsNextBoundary(previous, done + [x], AccumulatedWatermark(previous, noted))
    ensures x.listTime.epoch >= previous.boundaryTime.epoch ==>
      noted.maximumEpoch.Some? && noted.maximumEpoch.value >= previous.boundaryTime.epoch
  {
    var w := AccumulatedWatermark(previous, scan);
    Accumulated(previous, scan);
    Accumulated(previous, noted);
    assert (done + [x])[|done|] == x;
    if done != [] {
      assert (done + [x])[0] == done[0] && done[0] in done;
    }
    assert x.listTime.epoch > w.boundaryTime.epoch ==> done == [];
    ElementsAppend(scan.idsAtMaximum, x.listId);
    assert Elements([x.listId]) == {x.listId};
    ExtendBoundary(previous, done, w, x, AccumulatedWatermark(previous, noted));
  }

  lemma IdsAtOne(x: Listing, epoch: int)
    ensures IdsAt([x], epoch) == if x.listTime == At(epoch) then {x.listId} else {}
  {
    assert x in [x];
  }

  lemma ElementsConcat<T>(a: seq<T>, b: seq<T>)
    ensures Elements(a + b) == Elements(a) + Elements(b)
  {
    forall x | x in a || x in b ensures x in a + b {}
  }

  // ----- one page

  lemma UnseenCons(listings: seq<Listing>, index: nat, seen: set<ListingId>)
    requires index < |listings|
    ensures Unseen(listings[index..], seen)
         == (if listings[index].listId in seen then [] else [listings[index]])
            + Unseen(listings[index + 1..], seen + {listings[index].listId})
  {
    var x := listings[index];
    assert listings[index..] == [x] + listings[index + 1..];
    UnseenAppend([x], listings[index + 1..], seen);
    assert Ids([x]) == {x.listId} by { assert x in [x]; }
    assert [x][..0] == [];
    assert Unseen([x], seen) == if x.listId in seen then [] else [x];
  }

  lemma SortedPrefix(a: seq<Listing>, b: seq<Listing>)
    requires Sorted(a + b)
    ensures Sorted(a)
  {
    forall i | 0 <= i < |a| ensures a[i] == (a + b)[i] {}
    assert forall x | x in a :: x in a + b;
  }

  /**
   * A step after which this traversal processed `chunk`, and the whole catch-up `done`: it did not
   * fail; either it goes on, with nothing older than the boundary met, or the last listing is older.
   */
  ghost predicate StepMeaning(previous: Watermark, done: seq<Listing>, chunk: seq<Listing>,
                              seenIds: set<ListingId>, step: Step)
    requires previous.boundaryTime.At?
  {
    && !step.Stop?
    && step.scan.newListings == NewOf(previous, chunk)
    && (step.Continue? ==> step.scan.seenIds == seenIds && Represents(previous, done, step.scan))
    && (step.Crossed? ==>
          && IsNextBoundary(previous, done, AccumulatedWatermark(previous, step.scan))
          && EndsOlder(previous, done))
  }

  ghost predicate EndsOlder(previous: Watermark, done: seq<Listing>)
    requires previous.boundaryTime.At?
  {
    done != [] && done[|done| - 1].listTime.At?
    && done[|done| - 1].listTime.epoch < previous.boundaryTime.epoch
  }

  /** What one turn of the inner loop does to the local variables, apart from the maximum. */
  lemma AbsorbUnseen(previous: Watermark, scan: Scan, page: nat, index: nat, x: Listing)
    requires previous.boundaryTime.At? && x.listTime.At?
    requires x.listId !in scan.seenIds
    requires scan.previousObservation.Some? ==> x.listTime.epoch <= scan.previousObservation.value.epoch
    ensures var step := Absorb(previous, scan, page, index, x);
      && !step.Stop?
      && (step.Crossed? <==> x.listTime.epoch < previous.boundaryTime.epoch)
      && step.scan.seenIds == scan.seenIds + {x.listId}
      && step.scan.newListings == (if IsNew(previous, x) then scan.newListings + [x] else scan.newListings)
      && step.scan.maximumEpoch == NoteMaximum(scan, x.listTime.epoch, x.listId).maximumEpoch
      && step.scan.idsAtMaximum == NoteMaximum(scan, x.listTime.epoch, x.listId).idsAtMaximum
      && step.scan.previousObservation
         == Some(Ordering(Observation(page, index, x.listId, x.listTime), x.listTime.epoch))
  {
  }

  lemma ListingMeaning(previous: Watermark, done: seq<Listing>, chunk: seq<Listing>,
                       scan: Scan, page: nat, index: nat, x: Listing)
    requires previous.boundaryTime.At?
    requires Represents(previous, done, scan)
    requires Sorted(done + [x])
    requires scan.newListings == NewOf(previous, chunk)
    requires x.listId !in scan.seenIds
    ensures StepMeaning(previous, done + [x], chunk + [x], scan.seenIds + {x.listId},
                        Absorb(previous, scan, page, index, x))
  {
    hide Represents, Sorted, IsNextBoundary, Absorb, NoteMaximum, AccumulatedWatermark;
    SortedStep(previous, done, scan, x);
    AbsorbUnseen(previous, scan, page, index, x);
    var step := Absorb(previous, scan, page, index, x);
    MaximumStep(previous, done, scan, x, step.scan);
    NewOfOne(previous, chunk, x);
    if step.Continue? {
      StillUncrossed(previous, done, x, step.scan);
    }
  }

  lemma SortedStep(previous: Watermark, done: seq<Listing>, scan: Scan, x: Listing)
    requires previous.boundaryTime.At?
    requires Represents(previous, done, scan)
    requires Sorted(done + [x])
    ensures x.listTime.At?
    ensures scan.previousObservation.Some? ==> x.listTime.epoch <= scan.previousObservation.value.epoch
    ensures forall y | y in done :: y.listTime.At? && y.listTime.epoch >= previous.boundaryTime.epoch
  {
    assert (done + [x])[|done|] == x && x in done + [x];
    if done != [] {
      assert (done + [x])[|done| - 1] == done[|done| - 1];
    }
  }

  lemma NewOfOne(previous: Watermark, chunk: seq<Listing>, x: Listing)
    requires previous.boundaryTime.At?
    ensures NewOf(previous, chunk + [x])
         == if IsNew(previous, x) then NewOf(previous, chunk) + [x] else NewOf(previous, chunk)
  {
    assert (chunk + [x])[..|chunk|] == chunk;
  }

  lemma StillUncrossed(previous: Watermark, done: seq<Listing>, x: Listing, scan: Scan)
    requires previous.boundaryTime.At? && x.listTime.At?
    requires Sorted(done + [x])
    requires forall y | y in done :: y.listTime.At? && y.listTime.epoch >= previous.boundaryTime.epoch
    requires x.listTime.epoch >= previous.boundaryTime.epoch
    requires scan.maximumEpoch.Some? && scan.maximumEpoch.value >= previous.boundaryTime.epoch
    requires scan.previousObservation.Some?
    requires scan.previousObservation.value.epoch == x.listTime.epoch
    requires scan.previousObservation.value.observation.listId == x.listId
    requires scan.previousObservation.value.observation.listTime == x.listTime
    requires IsNextBoundary(previous, done + [x], AccumulatedWatermark(previous, scan))
    ensures Represents(previous, done + [x], scan)
  {
    assert (done + [x])[|done + [x]| - 1] == x;
    assert forall y | y in done + [x] :: y in done || y == x;
  }

  /**
   * The rest of a page, given that everything met and still to come is sorted: nothing fails, and
   * either the page is used up or the boundary is crossed and what follows is older too.
   */
  lemma {:induction false} PageMeaning(
    previous: Watermark, done: seq<Listing>, chunk: seq<Listing>,
    scan: Scan, page: nat, listings: seq<Listing>, index: nat)
    requires previous.boundaryTime.At? && index <= |listings|
    requires Sorted(done + Unseen(listings[index..], scan.seenIds))
    requires Represents(previous, done, scan)
    requires scan.newListings == NewOf(previous, chunk)
    ensures var rest := Unseen(listings[index..], scan.seenIds);
      StepMeaning(previous, done + rest, chunk + rest, scan.seenIds + Ids(listings[index..]),
                  AbsorbFrom(previous, scan, page, listings, index))
    decreases |listings| - index
  {
    hide Represents, Sorted, IsNextBoundary, Absorb, AccumulatedWatermark, NewOf, Ids;
    if index == |listings| {
      assert listings[index..] == [];
      assert Ids([]) == {} by { IdsEmpty(); }
      assert chunk + [] == chunk && done + [] == done;
    } else {
      var x := listings[index];
      var rest := Unseen(listings[index..], scan.seenIds);
      var tail := Unseen(listings[index + 1..], scan.seenIds + {x.listId});
      UnseenCons(listings, index, scan.seenIds);
      IdsCons(listings, index);
      assert scan.seenIds + Ids(listings[index..]) == scan.seenIds + {x.listId} + Ids(listings[index + 1..]);
      if x.listId in scan.seenIds {
        assert scan.seenIds + {x.listId} == scan.seenIds && rest == tail;
        AbsorbSeen(previous, scan, page, index, x);
        PageMeaning(previous, done, chunk, scan, page, listings, index + 1);
      } else {
        assert done + rest == done + [x] + tail && chunk + rest == chunk + [x] + tail;
        SortedPrefix(done + [x], tail);
        ListingMeaning(previous, done, chunk, scan, page, index, x);
        var step := Absorb(previous, scan, page, index, x);
        if step.Continue? {
          PageMeaning(previous, done + [x], chunk + [x], step.scan, page, listings, index + 1);
        } else {
          OlderTail(previous, done + [x], tail, AccumulatedWatermark(previous, step.scan));
          NewOfAppend(previous, chunk + [x], tail);
        }
      }
    }
  }

  lemma AbsorbSeen(previous: Watermark, scan: Scan, page: nat, index: nat, x: Listing)
    requires previous.boundaryTime.At?
    requires x.listId in scan.seenIds
    ensures Absorb(previous, scan, page, index, x) == Continue(scan)
  {
  }

  lemma IdsEmpty()
    ensures Ids([]) == {}
  {
  }

  lemma IdsCons(listings: seq<Listing>, index: nat)
    requires index < |listings|
    ensures Ids(listings[index..]) == {listings[index].listId} + Ids(listings[index + 1..])
  {
    assert listings[index..] == [listings[index]] + listings[index + 1..];
    IdsConcat([listings[index]], listings[index + 1..]);
    assert listings[index] in [listings[index]];
  }

  /** Listings after an older one change neither what is reported nor the boundary. */
  lemma OlderTail(previous: Watermark, done: seq<Listing>, tail: seq<Listing>, next: Watermark)
    requires previous.boundaryTime.At?
    requires Sorted(done + tail)
    requires EndsOlder(previous, done)
    requires IsNextBoundary(previous, done, next)
    ensures NewOf(previous, tail) == []
    ensures IsNextBoundary(previous, done + tail, next)
    ensures EndsOlder(previous, done + tail)
  {
    if tail != [] {
      assert tail[|tail| - 1] in tail;
    }
    forall x | x in tail ensures x.listTime.At? && x.listTime.epoch < previous.boundaryTime.epoch {
      var k :| 0 <= k < |tail| && tail[k] == x;
      assert (done + tail)[|done| + k] == x && (done + tail)[|done| - 1] == done[|done| - 1];
    }
    NothingNew(previous, tail);
    var t := next.boundaryTime.epoch;
    IdsAtAppend(done, tail, t);
    assert IdsAt(tail, t) == {};
    assert forall x | x in done + tail :: x in done || x in tail;
    if t != previous.boundaryTime.epoch {
      var y :| y in done && y.listTime == At(t);
      assert y in done + tail;
    }
  }
}

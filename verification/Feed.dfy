/**
 * The source as the worker sees it: pages of listings behind opaque cursors.
 * Timestamps are integer epochs; a timestamp text that `Date.parse` rejects is `Unparsable`.
 */
module Feed {
  import opened Basics

  type ListingId = string
  type Cursor = nat

  datatype Instant = At(epoch: int) | Unparsable

  datatype Listing = Listing(listId: ListingId, listTime: Instant, title: string)

  datatype Page = Page(listings: seq<Listing>, nextCursor: Option<Cursor>)

  datatype Fetch = Fetched(page: Page) | FetchFailed(reason: string)

  /**
   * What the source answers. The first argument counts the requests made before in the same
   * traversal, so a source whose content changes between two requests is covered.
   */
  type Adapter = (nat, Option<Cursor>) -> Fetch

  /** A source that does not change: page `i` sits behind cursor `i`. */
  function Answer(pages: seq<seq<Listing>>, cursor: Option<Cursor>): Fetch {
    var i := if cursor.Some? then cursor.value else 0;
    if i < |pages| then
      Fetched(Page(pages[i], if i + 1 < |pages| then Some(i + 1) else None))
    else FetchFailed("unknown cursor")
  }

  function FixedFeed(pages: seq<seq<Listing>>): Adapter {
    (calls: nat, cursor: Option<Cursor>) => Answer(pages, cursor)
  }

  function Flatten(pages: seq<seq<Listing>>): seq<Listing> {
    if pages == [] then [] else Flatten(pages[..|pages| - 1]) + pages[|pages| - 1]
  }

  function Ids(listings: seq<Listing>): set<ListingId> {
    set x | x in listings :: x.listId
  }

  lemma IdsAppend(listings: seq<Listing>, last: Listing)
    ensures Ids(listings + [last]) == Ids(listings) + {last.listId}
  {
    assert last == (listings + [last])[|listings|];
    forall x | x in listings ensures x in listings + [last] {}
  }

  lemma IdsConcat(a: seq<Listing>, b: seq<Listing>)
    ensures Ids(a + b) == Ids(a) + Ids(b)
  {
    forall x | x in a || x in b ensures x in a + b {}
  }

  /** The listings a traversal processes: those whose id it has not met before. */
  function Unseen(listings: seq<Listing>, seen: set<ListingId>): (r: seq<Listing>)
    ensures Ids(r) == Ids(listings) - seen
    ensures forall x | x in r :: x in listings && x.listId !in seen
  {
    if listings == [] then [] else
      var before := Unseen(listings[..|listings| - 1], seen);
      var last := listings[|listings| - 1];
      assert listings == listings[..|listings| - 1] + [last];
      IdsAppend(listings[..|listings| - 1], last);
      IdsAppend(before, last);
      if last.listId in seen || last.listId in Ids(before) then before else before + [last]
  }

  ghost predicate Timed(listings: seq<Listing>) {
    forall x | x in listings :: x.listTime.At?
  }

  /** Newest first. */
  ghost predicate Sorted(listings: seq<Listing>) {
    && Timed(listings)
    && forall i, j | 0 <= i < j < |listings| :: listings[i].listTime.epoch >= listings[j].listTime.epoch
  }

  ghost predicate DistinctIds(listings: seq<Listing>) {
    forall i, j | 0 <= i < j < |listings| :: listings[i].listId != listings[j].listId
  }

  /** Ids of the listings published exactly at `epoch`. */
  function IdsAt(listings: seq<Listing>, epoch: int): set<ListingId> {
    set x | x in listings && x.listTime == At(epoch) :: x.listId
  }

  lemma {:induction false} FlattenSplit(pages: seq<seq<Listing>>, cut: nat)
    requires cut <= |pages|
    ensures Flatten(pages) == Flatten(pages[..cut]) + Flatten(pages[cut..])
  {
    if cut == |pages| {
      assert pages[..cut] == pages;
    } else {
      var front := pages[..|pages| - 1];
      FlattenSplit(front, cut);
      assert front[..cut] == pages[..cut];
      var tail := pages[cut..];
      assert tail[..|tail| - 1] == front[cut..];
    }
  }

  lemma UnseenSnoc(listings: seq<Listing>, last: Listing, seen: set<ListingId>)
    ensures Unseen(listings + [last], seen)
         == Unseen(listings, seen) + if last.listId in seen + Ids(listings) then [] else [last]
  {
    assert (listings + [last])[..|listings|] == listings;
  }

  lemma UnseenNone(seen: set<ListingId>)
    ensures Unseen([], seen) == []
  {
  }

  /** Skipping duplicates page by page or over the whole list is the same. */
  lemma {:induction false} UnseenAppend(a: seq<Listing>, b: seq<Listing>, seen: set<ListingId>)
    ensures Unseen(a + b, seen) == Unseen(a, seen) + Unseen(b, seen + Ids(a))
  {
    hide Unseen, Ids;
    if b == [] {
      assert a + b == a;
      UnseenNone(seen + Ids(a));
      assert Unseen(a, seen) + [] == Unseen(a, seen);
    } else {
      var front, last := b[..|b| - 1], b[|b| - 1];
      UnseenAppend(a, front, seen);
      UnseenSnoc(a + front, last, seen);
      UnseenSnoc(front, last, seen + Ids(a));
      IdsConcat(a, front);
      var more := if last.listId in seen + Ids(a) + Ids(front) then [] else [last];
      assert last.listId in seen + Ids(a + front) <==> last.listId in seen + Ids(a) + Ids(front);
      assert a + b == (a + front) + [last] && b == front + [last];
      assert Unseen(a, seen) + Unseen(front, seen + Ids(a)) + more == Unseen(a, seen) + (Unseen(front, seen + Ids(a)) + more);
    }
  }

  lemma {:induction false} UnseenDistinct(listings: seq<Listing>, seen: set<ListingId>)
    ensures DistinctIds(Unseen(listings, seen))
  {
    if listings != [] {
      UnseenDistinct(listings[..|listings| - 1], seen);
    }
  }

  /** Nothing is skipped when ids are distinct and none was met before. */
  lemma {:induction false} UnseenAll(listings: seq<Listing>, seen: set<ListingId>)
    requires DistinctIds(listings)
    requires Ids(listings) !! seen
    ensures Unseen(listings, seen) == listings
  {
    if listings != [] {
      var front := listings[..|listings| - 1];
      var last := listings[|listings| - 1];
      assert listings == front + [last];
      assert last in listings && last.listId in Ids(listings);
      forall x | x in front ensures x.listId in Ids(listings) {
        assert x in listings;
      }
      UnseenAll(front, seen);
      assert last.listId !in Ids(front);
    }
  }
}

/**
 * Descriptions of candidates: the cache kept in the listing rows, the request budget of one run, and
 * the selection loop of a run. A run that exceeds its budget fails and commits nothing, but the rows
 * it wrote stay; the next run over the same candidates gets further.
 */
module DescriptionBudget {
  import opened Basics
  import opened Feed
  import opened MonitorStore
  import IncrementalRun

  const DESCRIPTION_REQUEST_LIMIT_PER_RUN: nat := 10

  datatype Availability = UnknownAvailability | Available | Unavailable

  /** The description columns of a listing row. */
  datatype Row = Row(availability: Availability, description: Option<string>, descriptionLoadedAt: Option<int>)

  type Rows = map<ListingId, Row>

  /** What the detail endpoint answers; `Refused` stands for every other response and for a body that cannot be read. */
  datatype Answer = Detail(description: Option<string>) | NotFound | Refused(reason: string)

  datatype DescriptionResult = Description(description: Option<string>) | Gone

  datatype LoadError = BudgetExceeded | SourceRequestFailed(reason: string) | LoaderRequired

  /** What a run depends on besides the candidates. */
  datatype Setting = Setting(
    carried: ListingId -> Option<string>, // the description a search result brings along
    http: ListingId -> Answer,
    now: int,
    accepts: Listing -> bool,
    searchInDescription: bool,
    hasLoader: bool,
    select: (Listing, Option<string>) -> Option<Selection>)

  // ----- specification

  /** A row whose description is known for good: loaded, or the listing is gone. */
  predicate Settled(rows: Rows, id: ListingId) {
    id in rows && (rows[id].availability.Unavailable? || rows[id].descriptionLoadedAt.Some?)
  }

  function Cached(row: Row): DescriptionResult {
    if row.availability.Unavailable? then Gone else Description(row.description)
  }

  /** The row before the answer, or the one a new row starts from. */
  function RowOf(rows: Rows, id: ListingId, carried: Option<string>): Row {
    if id in rows then rows[id] else Row(UnknownAvailability, carried, None)
  }

  /** The row after an answer that is final. */
  function Remember(rows: Rows, id: ListingId, answer: Answer, now: int, carried: Option<string>): Rows
    requires !answer.Refused?
  {
    rows[id := if answer.NotFound? then RowOf(rows, id, carried).(availability := Unavailable, descriptionLoadedAt := None)
               else Row(Available, answer.description, Some(now))]
  }

  /** `limit` None: no budget is passed. */
  datatype Work = Work(rows: Rows, consumed: nat, requests: seq<ListingId>)

  datatype Load = Load(work: Work, result: Result<DescriptionResult, LoadError>)

  function Ensure(setting: Setting, limit: Option<nat>, work: Work, id: ListingId): Load {
    if Settled(work.rows, id) then Load(work, Ok(Cached(work.rows[id])))
    else if limit.Some? && work.consumed >= limit.value then Load(work, Err(BudgetExceeded))
    else
      var asked := work.(consumed := if limit.Some? then work.consumed + 1 else work.consumed,
                         requests := work.requests + [id]);
      var answer := setting.http(id);
      if answer.Refused? then Load(asked, Err(SourceRequestFailed(answer.reason)))
      else Load(asked.(rows := Remember(work.rows, id, answer, setting.now, setting.carried(id))),
                Ok(if answer.NotFound? then Gone else Description(answer.description)))
  }

  datatype Selecting = Selecting(work: Work, result: Result<seq<SelectedListing>, LoadError>)

  function Chosen(setting: Setting, listing: Listing, description: Option<string>): seq<SelectedListing> {
    var selection := setting.select(listing, description);
    if selection.None? then [] else [SelectedListing(listing, selection.value)]
  }

  function SelectFrom(setting: Setting, limit: Option<nat>, work: Work, selected: seq<SelectedListing>,
                      listings: seq<Listing>): Selecting
    decreases |listings|
  {
    if listings == [] then Selecting(work, Ok(selected)) else
      var (listing, rest) := (listings[0], listings[1..]);
      if !setting.accepts(listing) then SelectFrom(setting, limit, work, selected, rest)
      else if !setting.searchInDescription then
        SelectFrom(setting, limit, work, selected + Chosen(setting, listing, None), rest)
      else if !setting.hasLoader then Selecting(work, Err(LoaderRequired))
      else
        var load := Ensure(setting, limit, work, listing.listId);
        if load.result.Err? then Selecting(load.work, Err(load.result.error))
        else if load.result.value.Gone? then SelectFrom(setting, limit, load.work, selected, rest)
        else SelectFrom(setting, limit, load.work,
                        selected + Chosen(setting, listing, load.result.value.description), rest)
  }

  /** One run over `candidates`: what it selects, or why it commits nothing. */
  function SelectRun(setting: Setting, rows: Rows, candidates: seq<Listing>): Selecting {
    SelectFrom(setting, Some(DESCRIPTION_REQUEST_LIMIT_PER_RUN), Work(rows, 0, []), [], candidates)
  }

  // ----- the code

  class DescriptionRequestBudget {
    var consumed: nat

    constructor ()
      ensures consumed == 0
    {
      consumed := 0;
    }

    method Consume() returns (granted: bool)
      modifies this
      ensures granted <==> old(consumed) < DESCRIPTION_REQUEST_LIMIT_PER_RUN
      ensures consumed == old(consumed) + if granted then 1 else 0
    {
      if consumed >= DESCRIPTION_REQUEST_LIMIT_PER_RUN {
        return false;
      }
      consumed := consumed + 1;
      granted := true;
    }
  }

  class ListingDescriptionCache {
    var rows: Rows
    ghost var requests: seq<ListingId>

    method EnsureDescriptionOnce(setting: Setting, listing: Listing, requestBudget: DescriptionRequestBudget?)
      returns (r: Result<DescriptionResult, LoadError>)
      modifies this, requestBudget
      ensures requestBudget != null ==>
                Load(Work(rows, requestBudget.consumed, requests), r)
                == Ensure(setting, Some(DESCRIPTION_REQUEST_LIMIT_PER_RUN),
                          old(Work(rows, requestBudget.consumed, requests)), listing.listId)
      ensures requestBudget == null ==>
                Load(Work(rows, 0, requests), r) == Ensure(setting, None, old(Work(rows, 0, requests)), listing.listId)
    {
      var id := listing.listId;
      if id in rows && rows[id].availability.Unavailable? {
        return Ok(Gone);
      }
      if id in rows && rows[id].descriptionLoadedAt.Some? {
        return Ok(Description(rows[id].description));
      }
      if requestBudget != null {
        var granted := requestBudget.Consume();
        if !granted {
          return Err(BudgetExceeded);
        }
      }
      requests := requests + [id];
      match setting.http(id)
      case Refused(reason) =>
        r := Err(SourceRequestFailed(reason));
      case NotFound =>
        if id in rows {
          rows := rows[id := rows[id].(availability := Unavailable, descriptionLoadedAt := None)];
        } else {
          rows := rows[id := Row(Unavailable, setting.carried(id), None)];
        }
        r := Ok(Gone);
      case Detail(description) =>
        rows := rows[id := Row(Available, description, Some(setting.now))];
        r := Ok(Description(description));
    }
  }

  /** The selection loop of `runIncrementalMonitor`. */
  method SelectCandidates(setting: Setting, cache: ListingDescriptionCache, candidates: seq<Listing>)
    returns (r: Result<seq<SelectedListing>, LoadError>)
    modifies cache
    ensures var run := SelectRun(setting, old(cache.rows), candidates);
            r == run.result && cache.rows == run.work.rows && cache.requests == old(cache.requests) + run.work.requests
  {
    ghost var log := cache.requests;
    var descriptionRequestBudget := new DescriptionRequestBudget();
    var selected: seq<SelectedListing> := [];
    var i := 0;
    assert candidates[0..] == candidates;
    ghost var limit := Some(DESCRIPTION_REQUEST_LIMIT_PER_RUN);
    ghost var work := Work(cache.rows, 0, []);
    while i < |candidates|
      invariant i <= |candidates|
      invariant work.rows == cache.rows && work.consumed == descriptionRequestBudget.consumed
      invariant cache.requests == log + work.requests
      invariant SelectRun(setting, old(cache.rows), candidates)
             == SelectFrom(setting, limit, work, selected, candidates[i..])
    {
      var listing := candidates[i];
      assert candidates[i..][1..] == candidates[i + 1..];
      i := i + 1;
      if !setting.accepts(listing) {
        continue;
      }
      var description: Option<string> := None;
      if setting.searchInDescription {
        if !setting.hasLoader {
          return Err(LoaderRequired);
        }
        RequestsAreAppended(setting, limit, work, log, listing.listId);
        var loaded := cache.EnsureDescriptionOnce(setting, listing, descriptionRequestBudget);
        work := Ensure(setting, limit, work, listing.listId).work;
        if loaded.Err? {
          return Err(loaded.error);
        }
        if loaded.value.Gone? {
          continue;
        }
        description := loaded.value.description;
      }
      var selection := setting.select(listing, description);
      if selection.Some? {
        selected := selected + [SelectedListing(listing, selection.value)];
      }
      assert selected + [] == selected;
    }
    r := Ok(selected);
  }

  lemma RequestsAreAppended(setting: Setting, limit: Option<nat>, work: Work, log: seq<ListingId>, id: ListingId)
    ensures var load := Ensure(setting, limit, work, id);
            Ensure(setting, limit, work.(requests := log + work.requests), id)
            == load.(work := load.work.(requests := log + load.work.requests))
  {
    assert log + work.requests + [id] == log + (work.requests + [id]);
  }

  // ----- whatever the endpoint answers

  /** What a piece of work leaves behind: settled rows stay, are not asked for, and every request cost one unit. */
  ghost predicate Follows(limit: Option<nat>, before: Work, after: Work) {
    && before.requests <= after.requests
    && (limit.Some? ==> after.consumed - before.consumed == |after.requests| - |before.requests|)
    && (limit.Some? && before.consumed <= limit.value ==> after.consumed <= limit.value)
    && (forall id | Settled(before.rows, id) ::
          id in after.rows && after.rows[id] == before.rows[id] && id !in after.requests[|before.requests|..])
    && forall k | |before.requests| <= k < |after.requests| - 1 :: Settled(after.rows, after.requests[k])
  }

  lemma EnsureFollows(setting: Setting, limit: Option<nat>, work: Work, id: ListingId)
    ensures var load := Ensure(setting, limit, work, id);
            && Follows(limit, work, load.work)
            && (load.result.Ok? ==> Settled(load.work.rows, id) && Cached(load.work.rows[id]) == load.result.value)
            && (load.result.Ok? ==> forall k | |work.requests| <= k < |load.work.requests| :: load.work.requests[k] == id)
  {
    var load := Ensure(setting, limit, work, id);
    assert load.work.requests[|work.requests|..] == [] || load.work.requests[|work.requests|..] == [id];
  }

  lemma FollowsChain(limit: Option<nat>, a: Work, b: Work, c: Work)
    requires Follows(limit, a, b) && Follows(limit, b, c)
    requires forall k | |a.requests| <= k < |b.requests| :: Settled(b.rows, b.requests[k])
    ensures Follows(limit, a, c)
  {
    var made := c.requests[|a.requests|..];
    assert made == b.requests[|a.requests|..] + c.requests[|b.requests|..];
    forall k | |a.requests| <= k < |c.requests| - 1 ensures Settled(c.rows, c.requests[k]) {
      if k < |b.requests| {
        assert c.requests[k] == b.requests[k];
      }
    }
  }

  lemma FollowsItself(limit: Option<nat>, work: Work)
    ensures Follows(limit, work, work)
  {
  }

  lemma {:induction false} SelectFollows(setting: Setting, limit: Option<nat>, work: Work,
                                         selected: seq<SelectedListing>, listings: seq<Listing>)
    ensures Follows(limit, work, SelectFrom(setting, limit, work, selected, listings).work)
    decreases |listings|
  {
    hide Follows, Ensure, Settled;
    if listings == [] {
      FollowsItself(limit, work);
    } else {
      var (listing, rest) := (listings[0], listings[1..]);
      if !setting.accepts(listing) {
        SelectFollows(setting, limit, work, selected, rest);
      } else if !setting.searchInDescription {
        SelectFollows(setting, limit, work, selected + Chosen(setting, listing, None), rest);
      } else if !setting.hasLoader {
        FollowsItself(limit, work);
      } else {
        EnsureFollows(setting, limit, work, listing.listId);
        var load := Ensure(setting, limit, work, listing.listId);
        if load.result.Ok? {
          var more := if load.result.value.Gone? then [] else Chosen(setting, listing, load.result.value.description);
          assert selected + [] == selected;
          SelectFollows(setting, limit, load.work, selected + more, rest);
          FollowsChain(limit, work, load.work, SelectFrom(setting, limit, load.work, selected + more, rest).work);
        }
      }
    }
  }

  /**
   * Whatever the endpoint answers, one run makes at most ten requests, none for a row settled before,
   * leaves those rows as they were, and every request but the last has settled its row.
   */
  lemma RunIsBounded(setting: Setting, rows: Rows, candidates: seq<Listing>)
    ensures var run := SelectRun(setting, rows, candidates);
            && |run.work.requests| <= DESCRIPTION_REQUEST_LIMIT_PER_RUN
            && (forall id | Settled(rows, id) ::
                  id in run.work.rows && run.work.rows[id] == rows[id] && id !in run.work.requests)
            && forall k | 0 <= k < |run.work.requests| - 1 :: Settled(run.work.rows, run.work.requests[k])
  {
    var work := Work(rows, 0, []);
    SelectFollows(setting, Some(DESCRIPTION_REQUEST_LIMIT_PER_RUN), work, [], candidates);
    var run := SelectRun(setting, rows, candidates);
    assert run.work.requests[0..] == run.work.requests;
  }

  /** The requests of a history of runs, each with its own settings and candidates. */
  function History(rows: Rows, runs: seq<(Setting, seq<Listing>)>): (Rows, seq<ListingId>)
    decreases |runs|
  {
    if runs == [] then (rows, []) else
      var first := SelectRun(runs[0].0, rows, runs[0].1).work;
      var later := History(first.rows, runs[1..]);
      (later.0, first.requests + later.1)
  }

  /** A final answer is remembered for ever: no run in any later history asks again. */
  lemma {:induction false} NeverAskedAgain(rows: Rows, runs: seq<(Setting, seq<Listing>)>, id: ListingId)
    requires Settled(rows, id)
    ensures id in History(rows, runs).0 && History(rows, runs).0[id] == rows[id]
    ensures id !in History(rows, runs).1
    decreases |runs|
  {
    if runs != [] {
      RunIsBounded(runs[0].0, rows, runs[0].1);
      NeverAskedAgain(SelectRun(runs[0].0, rows, runs[0].1).work.rows, runs[1..], id);
    }
  }

  // ----- progress, when the endpoint answers

  ghost predicate Answering(setting: Setting) {
    && setting.searchInDescription && setting.hasLoader
    && forall id :: !setting.http(id).Refused?
  }

  /** The accepted candidates whose description is not settled yet. */
  function Waiting(setting: Setting, rows: Rows, listings: seq<Listing>): seq<Listing> {
    if listings == [] then []
    else (if setting.accepts(listings[0]) && !Settled(rows, listings[0].listId) then [listings[0]] else [])
         + Waiting(setting, rows, listings[1..])
  }

  function Remembered(setting: Setting, rows: Rows, id: ListingId): Rows {
    if setting.http(id).Refused? then rows else Remember(rows, id, setting.http(id), setting.now, setting.carried(id))
  }

  function LoadAll(setting: Setting, rows: Rows, listings: seq<Listing>): Rows
    decreases |listings|
  {
    if listings == [] then rows else LoadAll(setting, Remembered(setting, rows, listings[0].listId), listings[1..])
  }

  function IdsOf(listings: seq<Listing>): seq<ListingId> {
    seq(|listings|, i requires 0 <= i < |listings| => listings[i].listId)
  }

  /** What would be known about a listing if every request were made. */
  function Knowledge(setting: Setting, rows: Rows, id: ListingId): DescriptionResult {
    if Settled(rows, id) then Cached(rows[id])
    else match setting.http(id)
         case Detail(description) => Description(description)
         case NotFound => Gone
         case Refused(_) => Gone
  }

  /** The selector of a run that knows every description. */
  function KnowingSelector(setting: Setting, rows: Rows): IncrementalRun.Selector {
    listing =>
      if !setting.accepts(listing) then None
      else if !setting.searchInDescription then setting.select(listing, None)
      else match Knowledge(setting, rows, listing.listId)
           case Gone => None
           case Description(description) => setting.select(listing, description)
  }

  function Known(setting: Setting, rows: Rows, listings: seq<Listing>): seq<SelectedListing> {
    if listings == [] then [] else
      var selection := KnowingSelector(setting, rows)(listings[0]);
      (if selection.None? then [] else [SelectedListing(listings[0], selection.value)])
      + Known(setting, rows, listings[1..])
  }

  lemma {:induction false} KnownIsSelect(setting: Setting, rows: Rows, listings: seq<Listing>)
    ensures Known(setting, rows, listings) == IncrementalRun.Select(KnowingSelector(setting, rows), listings)
  {
    if listings != [] {
      KnownIsSelect(setting, rows, listings[1..]);
      SelectFront(KnowingSelector(setting, rows), listings);
    }
  }

  lemma {:induction false} SelectFront(select: IncrementalRun.Selector, listings: seq<Listing>)
    requires listings != []
    ensures IncrementalRun.Select(select, listings)
         == (if select(listings[0]).None? then [] else [SelectedListing(listings[0], select(listings[0]).value)])
            + IncrementalRun.Select(select, listings[1..])
  {
    var last := |listings| - 1;
    if last > 0 {
      SelectFront(select, listings[..last]);
      assert listings[..last][1..] == listings[1..][..last - 1];
    }
  }

  lemma RememberedKeeps(setting: Setting, rows: Rows, id: ListingId, other: ListingId)
    requires !Settled(rows, id) && !setting.http(id).Refused?
    ensures Settled(Remembered(setting, rows, id), other) <==> Settled(rows, other) || other == id
    ensures Knowledge(setting, Remembered(setting, rows, id), other) == Knowledge(setting, rows, other)
  {
  }

  /** The waiting list and the knowledge about listings depend only on their own rows. */
  lemma {:induction false} OtherRowsDoNotMatter(setting: Setting, rows: Rows, other: Rows, listings: seq<Listing>)
    requires forall x | x in listings :: Settled(rows, x.listId) == Settled(other, x.listId)
                                         && Knowledge(setting, rows, x.listId) == Knowledge(setting, other, x.listId)
    ensures Waiting(setting, rows, listings) == Waiting(setting, other, listings)
    ensures Known(setting, rows, listings) == Known(setting, other, listings)
  {
    hide Settled, Knowledge;
    if listings != [] {
      assert listings[0] in listings && forall x | x in listings[1..] :: x in listings;
      OtherRowsDoNotMatter(setting, rows, other, listings[1..]);
    }
  }

  lemma LoadingFirst(setting: Setting, rows: Rows, listings: seq<Listing>)
    requires DistinctIds(listings) && listings != []
    requires !Settled(rows, listings[0].listId) && !setting.http(listings[0].listId).Refused?
    ensures var loaded := Remembered(setting, rows, listings[0].listId);
            && Waiting(setting, loaded, listings[1..]) == Waiting(setting, rows, listings[1..])
            && Known(setting, loaded, listings[1..]) == Known(setting, rows, listings[1..])
  {
    hide Settled, Knowledge, Remembered, Waiting, Known;
    var loaded := Remembered(setting, rows, listings[0].listId);
    forall x | x in listings[1..]
      ensures Settled(rows, x.listId) == Settled(loaded, x.listId)
           && Knowledge(setting, rows, x.listId) == Knowledge(setting, loaded, x.listId)
    {
      RememberedKeeps(setting, rows, listings[0].listId, x.listId);
    }
    OtherRowsDoNotMatter(setting, rows, loaded, listings[1..]);
  }

  predicate HasRoom(limit: Option<nat>, consumed: nat, waiting: nat) {
    limit.None? || consumed + waiting <= limit.value
  }

  function KnownHere(setting: Setting, rows: Rows, listing: Listing): seq<SelectedListing> {
    var selection := KnowingSelector(setting, rows)(listing);
    if selection.None? then [] else [SelectedListing(listing, selection.value)]
  }

  /** A listing that makes no request. */
  lemma QuietStep(setting: Setting, limit: Option<nat>, work: Work, selected: seq<SelectedListing>, listings: seq<Listing>)
    requires Answering(setting) && listings != []
    requires !setting.accepts(listings[0]) || Settled(work.rows, listings[0].listId)
    ensures SelectFrom(setting, limit, work, selected, listings)
         == SelectFrom(setting, limit, work, selected + KnownHere(setting, work.rows, listings[0]), listings[1..])
    ensures Waiting(setting, work.rows, listings) == Waiting(setting, work.rows, listings[1..])
  {
    assert selected + [] == selected;
  }

  function AfterLoad(setting: Setting, limit: Option<nat>, work: Work, id: ListingId): Work {
    Work(Remembered(setting, work.rows, id), if limit.Some? then work.consumed + 1 else work.consumed, work.requests + [id])
  }

  /** A listing that makes a request within the budget. */
  lemma LoadStep(setting: Setting, limit: Option<nat>, work: Work, selected: seq<SelectedListing>, listings: seq<Listing>)
    requires Answering(setting) && listings != []
    requires setting.accepts(listings[0]) && !Settled(work.rows, listings[0].listId)
    requires limit.Some? ==> work.consumed < limit.value
    ensures SelectFrom(setting, limit, work, selected, listings)
         == SelectFrom(setting, limit, AfterLoad(setting, limit, work, listings[0].listId),
                       selected + KnownHere(setting, work.rows, listings[0]), listings[1..])
    ensures Waiting(setting, work.rows, listings) == [listings[0]] + Waiting(setting, work.rows, listings[1..])
  {
    assert selected + [] == selected;
  }

  ghost predicate Progressed(setting: Setting, limit: Option<nat>, work: Work, known: seq<SelectedListing>,
                             waiting: seq<Listing>, run: Selecting)
    requires limit.Some? ==> work.consumed <= limit.value
  {
    if HasRoom(limit, work.consumed, |waiting|) then
      && run.result == Ok(known)
      && run.work.rows == LoadAll(setting, work.rows, waiting)
      && run.work.requests == work.requests + IdsOf(waiting)
    else
      var done := waiting[..limit.value - work.consumed];
      && run.result == Err(BudgetExceeded)
      && run.work.rows == LoadAll(setting, work.rows, done)
      && run.work.requests == work.requests + IdsOf(done)
  }

  lemma ProgressedLoad(setting: Setting, limit: Option<nat>, work: Work, known: seq<SelectedListing>,
                       first: Listing, rest: seq<Listing>, run: Selecting)
    requires limit.Some? ==> work.consumed < limit.value
    requires Progressed(setting, limit, AfterLoad(setting, limit, work, first.listId), known, rest, run)
    ensures Progressed(setting, limit, work, known, [first] + rest, run)
  {
    hide LoadAll, IdsOf, Remembered;
    LoadedFirst(setting, limit, work, first, rest);
  }

  /**
   * With a source that answers, the loop ends exactly when its budget covers everything waiting;
   * otherwise it stops having settled as many as the budget allowed, in order.
   */
  lemma {:induction false} SelectProgress(setting: Setting, limit: Option<nat>, work: Work,
                                          selected: seq<SelectedListing>, listings: seq<Listing>)
    requires Answering(setting) && DistinctIds(listings)
    requires limit.Some? ==> work.consumed <= limit.value
    ensures Progressed(setting, limit, work, selected + Known(setting, work.rows, listings),
                       Waiting(setting, work.rows, listings), SelectFrom(setting, limit, work, selected, listings))
    decreases |listings|
  {
    if listings == [] {
      assert selected + [] == selected && work.requests + IdsOf([]) == work.requests;
    } else {
      hide SelectFrom, Settled, KnowingSelector, Waiting, Progressed, LoadAll, IdsOf, Remembered;
      var (listing, rest) := (listings[0], listings[1..]);
      assert DistinctIds(rest);
      var more := KnownHere(setting, work.rows, listing);
      assert selected + more + Known(setting, work.rows, rest) == selected + (more + Known(setting, work.rows, rest));
      if !setting.accepts(listing) || Settled(work.rows, listing.listId) {
        QuietStep(setting, limit, work, selected, listings);
        SelectProgress(setting, limit, work, selected + more, rest);
      } else if limit.Some? && work.consumed == limit.value {
        Exhausted(setting, limit, work, selected, listings);
      } else {
        LoadStep(setting, limit, work, selected, listings);
        LoadingFirst(setting, work.rows, listings);
        var next := AfterLoad(setting, limit, work, listing.listId);
        SelectProgress(setting, limit, next, selected + more, rest);
        ProgressedLoad(setting, limit, work, selected + Known(setting, work.rows, listings), listing,
                       Waiting(setting, work.rows, rest), SelectFrom(setting, limit, work, selected, listings));
      }
    }
  }

  lemma Exhausted(setting: Setting, limit: Option<nat>, work: Work, selected: seq<SelectedListing>, listings: seq<Listing>)
    requires Answering(setting) && listings != [] && limit.Some? && work.consumed == limit.value
    requires setting.accepts(listings[0]) && !Settled(work.rows, listings[0].listId)
    ensures Progressed(setting, limit, work, selected + Known(setting, work.rows, listings),
                       Waiting(setting, work.rows, listings), SelectFrom(setting, limit, work, selected, listings))
  {
    assert work.requests + IdsOf([]) == work.requests && Waiting(setting, work.rows, listings)[..0] == [];
  }

  lemma LoadedFirst(setting: Setting, limit: Option<nat>, work: Work, first: Listing, rest: seq<Listing>)
    ensures forall k: nat | k <= |rest| ::
              && ([first] + rest)[..k + 1] == [first] + rest[..k]
              && LoadAll(setting, work.rows, [first] + rest[..k])
                 == LoadAll(setting, Remembered(setting, work.rows, first.listId), rest[..k])
              && work.requests + [first.listId] + IdsOf(rest[..k]) == work.requests + IdsOf([first] + rest[..k])
    ensures rest[..|rest|] == rest
  {
    forall k: nat | k <= |rest|
      ensures LoadAll(setting, work.rows, [first] + rest[..k])
           == LoadAll(setting, Remembered(setting, work.rows, first.listId), rest[..k])
    {
      assert ([first] + rest[..k])[1..] == rest[..k];
    }
    forall k: nat | k <= |rest|
      ensures work.requests + [first.listId] + IdsOf(rest[..k]) == work.requests + IdsOf([first] + rest[..k])
    {
      assert IdsOf([first] + rest[..k]) == [first.listId] + IdsOf(rest[..k]);
    }
  }

  // ----- how many runs it takes

  ghost predicate IsAmong(id: ListingId, listings: seq<Listing>) {
    exists i | 0 <= i < |listings| :: listings[i].listId == id
  }

  lemma {:induction false} LoadsKeep(setting: Setting, rows: Rows, loads: seq<Listing>)
    requires Answering(setting) && DistinctIds(loads)
    requires forall i | 0 <= i < |loads| :: !Settled(rows, loads[i].listId)
    ensures var after := LoadAll(setting, rows, loads);
            forall id :: (Settled(after, id) <==> Settled(rows, id) || IsAmong(id, loads))
                         && Knowledge(setting, after, id) == Knowledge(setting, rows, id)
    decreases |loads|
  {
    hide Settled, Knowledge, Remembered;
    if loads != [] {
      var loaded := Remembered(setting, rows, loads[0].listId);
      forall id ensures Settled(loaded, id) <==> Settled(rows, id) || id == loads[0].listId
                ensures Knowledge(setting, loaded, id) == Knowledge(setting, rows, id)
      {
        RememberedKeeps(setting, rows, loads[0].listId, id);
      }
      LoadsKeep(setting, loaded, loads[1..]);
      forall id ensures IsAmong(id, loads) <==> id == loads[0].listId || IsAmong(id, loads[1..]) {
        AmongCons(id, loads);
      }
    }
  }

  lemma AmongCons(id: ListingId, listings: seq<Listing>)
    requires listings != []
    ensures IsAmong(id, listings) <==> id == listings[0].listId || IsAmong(id, listings[1..])
  {
    if IsAmong(id, listings[1..]) {
      var i :| 0 <= i < |listings[1..]| && listings[1..][i].listId == id;
      assert listings[i + 1].listId == id;
    }
    if IsAmong(id, listings) {
      var i :| 0 <= i < |listings| && listings[i].listId == id;
      assert i > 0 ==> listings[1..][i - 1].listId == id;
    }
  }

  lemma {:induction false} WaitingIsPart(setting: Setting, rows: Rows, listings: seq<Listing>)
    requires DistinctIds(listings)
    ensures var waiting := Waiting(setting, rows, listings);
            && DistinctIds(waiting)
            && forall i | 0 <= i < |waiting| :: waiting[i] in listings && !Settled(rows, waiting[i].listId)
  {
    hide Settled;
    if listings != [] {
      var (first, rest) := (listings[0], listings[1..]);
      assert DistinctIds(rest);
      WaitingIsPart(setting, rows, rest);
      forall x | x in rest ensures x.listId != first.listId && x in listings {}
    }
  }

  lemma NoneAmong(id: ListingId)
    ensures !IsAmong(id, [])
  {
  }

  /** Settling the first `k` waiting listings leaves exactly the others waiting. */
  lemma {:induction false} WaitingShrinks(setting: Setting, rows: Rows, after: Rows, listings: seq<Listing>, k: nat)
    requires DistinctIds(listings) && k <= |Waiting(setting, rows, listings)|
    requires forall x | x in listings ::
               Settled(after, x.listId) <==> Settled(rows, x.listId) || IsAmong(x.listId, Waiting(setting, rows, listings)[..k])
    ensures Waiting(setting, after, listings) == Waiting(setting, rows, listings)[k..]
    decreases |listings|
  {
    hide Settled, IsAmong;
    if listings != [] {
      var (first, rest) := (listings[0], listings[1..]);
      var waiting := Waiting(setting, rows, listings);
      var others := Waiting(setting, rows, rest);
      assert first in listings && DistinctIds(rest);
      assert forall x | x in rest :: x in listings && x.listId != first.listId;
      if setting.accepts(first) && !Settled(rows, first.listId) {
        assert waiting == [first] + others;
        if k > 0 {
          assert waiting[..k] == [first] + others[..k - 1];
          assert waiting[..k][1..] == others[..k - 1];
          AmongCons(first.listId, waiting[..k]);
          forall x | x in rest ensures IsAmong(x.listId, waiting[..k]) <==> IsAmong(x.listId, others[..k - 1]) {
            AmongCons(x.listId, waiting[..k]);
          }
          WaitingShrinks(setting, rows, after, rest, k - 1);
        } else {
          assert waiting[..0] == [] && others[..0] == [];
          NoneAmong(first.listId);
          WaitingShrinks(setting, rows, after, rest, 0);
        }
      } else {
        assert waiting == others;
        WaitingShrinks(setting, rows, after, rest, k);
      }
    }
  }

  lemma {:induction false} KnownFromKnowledge(setting: Setting, rows: Rows, other: Rows, listings: seq<Listing>)
    requires forall id :: Knowledge(setting, rows, id) == Knowledge(setting, other, id)
    ensures Known(setting, rows, listings) == Known(setting, other, listings)
  {
    hide Knowledge;
    if listings != [] {
      KnownFromKnowledge(setting, rows, other, listings[1..]);
    }
  }

  lemma WaitingAfterLoads(setting: Setting, rows: Rows, listings: seq<Listing>, k: nat)
    requires Answering(setting) && DistinctIds(listings)
    requires k <= |Waiting(setting, rows, listings)|
    ensures var waiting := Waiting(setting, rows, listings);
            var after := LoadAll(setting, rows, waiting[..k]);
            && Waiting(setting, after, listings) == waiting[k..]
            && Known(setting, after, listings) == Known(setting, rows, listings)
  {
    hide Settled, Knowledge, LoadAll, Waiting, Known;
    WaitingIsPart(setting, rows, listings);
    var loads := Waiting(setting, rows, listings)[..k];
    LoadsKeep(setting, rows, loads);
    WaitingShrinks(setting, rows, LoadAll(setting, rows, loads), listings, k);
    KnownFromKnowledge(setting, LoadAll(setting, rows, loads), rows, listings);
  }

  /** The rows after `n` runs over the same candidates. */
  function RowsAfter(setting: Setting, rows: Rows, candidates: seq<Listing>, n: nat): Rows {
    if n == 0 then rows
    else SelectRun(setting, RowsAfter(setting, rows, candidates, n - 1), candidates).work.rows
  }

  /** `max(1, ceil(waiting / 10))` */
  function RunsNeeded(waiting: nat): nat {
    if waiting == 0 then 1
    else (waiting + DESCRIPTION_REQUEST_LIMIT_PER_RUN - 1) / DESCRIPTION_REQUEST_LIMIT_PER_RUN
  }

  lemma {:induction false} WaitingAfterRuns(setting: Setting, rows: Rows, candidates: seq<Listing>, n: nat)
    requires Answering(setting) && DistinctIds(candidates)
    requires n < RunsNeeded(|Waiting(setting, rows, candidates)|)
    ensures var waiting := Waiting(setting, rows, candidates);
            var now := RowsAfter(setting, rows, candidates, n);
            && 10 * n <= |waiting|
            && Waiting(setting, now, candidates) == waiting[10 * n..]
            && Known(setting, now, candidates) == Known(setting, rows, candidates)
  {
    hide Waiting, Known, LoadAll, SelectFrom, Answering, DistinctIds;
    if n > 0 {
      WaitingAfterRuns(setting, rows, candidates, n - 1);
      var before := RowsAfter(setting, rows, candidates, n - 1);
      SelectProgress(setting, Some(DESCRIPTION_REQUEST_LIMIT_PER_RUN), Work(before, 0, []), [], candidates);
      WaitingAfterLoads(setting, before, candidates, DESCRIPTION_REQUEST_LIMIT_PER_RUN);
    }
  }

  /**
   * Over the same candidates and a source that answers, every run before the last one needed fails
   * with an exhausted budget after exactly ten requests, and that run selects what a run without any
   * budget selects at once.
   */
  lemma BudgetedRunsCommit(setting: Setting, rows: Rows, candidates: seq<Listing>, n: nat)
    requires Answering(setting) && DistinctIds(candidates)
    ensures var run := SelectRun(setting, RowsAfter(setting, rows, candidates, n), candidates);
            var needed := RunsNeeded(|Waiting(setting, rows, candidates)|);
            && (n + 1 < needed ==> run.result == Err(BudgetExceeded)
                                   && |run.work.requests| == DESCRIPTION_REQUEST_LIMIT_PER_RUN)
            && (n + 1 == needed ==>
                  && run.result == Ok(IncrementalRun.Select(KnowingSelector(setting, rows), candidates))
                  && run.result == SelectFrom(setting, None, Work(rows, 0, []), [], candidates).result)
  {
    if n < RunsNeeded(|Waiting(setting, rows, candidates)|) {
      WaitingAfterRuns(setting, rows, candidates, n);
      var now := RowsAfter(setting, rows, candidates, n);
      SelectProgress(setting, Some(DESCRIPTION_REQUEST_LIMIT_PER_RUN), Work(now, 0, []), [], candidates);
      SelectProgress(setting, None, Work(rows, 0, []), [], candidates);
      KnownIsSelect(setting, rows, candidates);
      assert [] + Known(setting, rows, candidates) == Known(setting, rows, candidates);
    }
  }

  /** Whatever the endpoint answers: a loop that ends has selected as if every description were known. */
  lemma {:induction false} SelectionIsKnowing(setting: Setting, limit: Option<nat>, work: Work,
                                              selected: seq<SelectedListing>, listings: seq<Listing>)
    requires DistinctIds(listings)
    ensures var run := SelectFrom(setting, limit, work, selected, listings);
            run.result.Ok? ==> run.result.value == selected + Known(setting, work.rows, listings)
    decreases |listings|
  {
    if listings == [] {
      assert selected + [] == selected;
    } else {
      var (listing, rest) := (listings[0], listings[1..]);
      assert DistinctIds(rest);
      var more := KnownHere(setting, work.rows, listing);
      assert selected + [] == selected;
      assert selected + more + Known(setting, work.rows, rest) == selected + (more + Known(setting, work.rows, rest));
      var load := Ensure(setting, limit, work, listing.listId);
      if !setting.accepts(listing) || !setting.searchInDescription || load.work.rows == work.rows {
        SelectionIsKnowing(setting, limit, if setting.accepts(listing) && setting.searchInDescription then load.work else work,
                           selected + more, rest);
      } else {
        LoadingFirst(setting, work.rows, listings);
        SelectionIsKnowing(setting, limit, load.work, selected + more, rest);
      }
    }
  }

  // ----- what one look-up does

  ghost predicate IsKnown(rows: Rows, id: ListingId) {
    id in rows && (rows[id].availability == Unavailable || rows[id].descriptionLoadedAt.Some?)
  }

  /** What was not known is asked for: the answer is returned, and a final one is the listing's row from now on. */
  ghost predicate Asked(setting: Setting, work: Work, id: ListingId, limit: Option<nat>, r: Load) {
    && r.work.requests == work.requests + [id]
    && r.work.consumed == work.consumed + (if limit.Some? then 1 else 0)
    && (forall other | other in work.rows && other != id :: other in r.work.rows && r.work.rows[other] == work.rows[other])
    && match setting.http(id)
       case Refused(reason) => r.result == Err(SourceRequestFailed(reason)) && r.work.rows == work.rows
       case NotFound =>
         && r.result == Ok(Gone)
         && r.work.rows.Keys == work.rows.Keys + {id}
         && r.work.rows[id].availability == Unavailable && r.work.rows[id].descriptionLoadedAt == None
         && r.work.rows[id].description == (if id in work.rows then work.rows[id].description else setting.carried(id))
       case Detail(description) =>
         && r.result == Ok(Description(description))
         && r.work.rows.Keys == work.rows.Keys + {id}
         && r.work.rows[id].availability == Available && r.work.rows[id].descriptionLoadedAt == Some(setting.now)
         && r.work.rows[id].description == description
  }

  /**
   * What is known is answered from its row, without a request; else the budget may refuse; else the source is
   * asked, once. An answer, once given, is given again to whoever asks, without a request.
   */
  lemma LookUpMeaning(setting: Setting, limit: Option<nat>, work: Work, id: ListingId, later: Setting, other: Option<nat>)
    ensures var r := Ensure(setting, limit, work, id);
      && (IsKnown(work.rows, id) ==>
            && r.work == work
            && (work.rows[id].availability == Unavailable ==> r.result == Ok(Gone))
            && (work.rows[id].availability != Unavailable ==> r.result == Ok(Description(work.rows[id].description))))
      && (!IsKnown(work.rows, id) && limit.Some? && limit.value <= work.consumed ==> r == Load(work, Err(BudgetExceeded)))
      && (!IsKnown(work.rows, id) && (limit.Some? ==> work.consumed < limit.value) ==> Asked(setting, work, id, limit, r))
      && (r.result.Ok? ==> Ensure(later, other, r.work, id) == Load(r.work, r.result))
  {
  }

  // ----- what is selected

  /** Accepted, and selected with its description if descriptions are searched: then it is known, and not gone. */
  ghost predicate IsSelected(setting: Setting, rows: Rows, item: SelectedListing) {
    && setting.accepts(item.listing)
    && if !setting.searchInDescription then setting.select(item.listing, None) == Some(item.selection)
       else
         && item.listing.listId in rows && rows[item.listing.listId].availability != Unavailable
         && rows[item.listing.listId].descriptionLoadedAt.Some?
         && setting.select(item.listing, rows[item.listing.listId].description) == Some(item.selection)
  }

  /** The listing is judged by its description. */
  ghost predicate NeedsDescription(setting: Setting, listing: Listing) {
    setting.accepts(listing) && setting.searchInDescription
  }

  lemma OneSelected(setting: Setting, limit: Option<nat>, work: Work, first: Listing, final: Rows) returns (more: seq<SelectedListing>)
    requires NeedsDescription(setting, first) ==>
               setting.hasLoader && Ensure(setting, limit, work, first.listId).result.Ok?
    requires NeedsDescription(setting, first) ==>
               var row := first.listId;
               row in final && row in Ensure(setting, limit, work, row).work.rows
               && final[row] == Ensure(setting, limit, work, row).work.rows[row]
    ensures more == (if !setting.accepts(first) then []
                     else if !setting.searchInDescription then Chosen(setting, first, None)
                     else
                       var answer := Ensure(setting, limit, work, first.listId).result.value;
                       if answer.Gone? then [] else Chosen(setting, first, answer.description))
    ensures forall item :: item in more <==> item.listing == first && IsSelected(setting, final, item)
  {
    more := if !setting.accepts(first) then []
            else if !setting.searchInDescription then Chosen(setting, first, None)
            else
              var answer := Ensure(setting, limit, work, first.listId).result.value;
              if answer.Gone? then [] else Chosen(setting, first, answer.description);
    if NeedsDescription(setting, first) {
      EnsureFollows(setting, limit, work, first.listId);
    }
    hide Ensure;
  }

  /**
   * A run that ends has selected exactly the candidates that are accepted and match, each judged by the
   * description its row now holds.
   */
  lemma {:induction false} SelectionMeaning(setting: Setting, limit: Option<nat>, work: Work,
                                            selected: seq<SelectedListing>, listings: seq<Listing>)
    ensures var run := SelectFrom(setting, limit, work, selected, listings);
      run.result.Ok? ==>
        && selected <= run.result.value
        && forall item :: item in run.result.value <==>
             item in selected || (item.listing in listings && IsSelected(setting, run.work.rows, item))
    decreases |listings|
  {
    hide Ensure, IsSelected, Chosen, Follows, Settled;
    var run := SelectFrom(setting, limit, work, selected, listings);
    if listings != [] && run.result.Ok? {
      var first, rest := listings[0], listings[1..];
      assert listings == [first] + rest;
      var load := Ensure(setting, limit, work, first.listId);
      var next := if NeedsDescription(setting, first) then load.work else work;
      if NeedsDescription(setting, first) {
        RowStays(setting, limit, work, first, rest);
      }
      var more := OneSelected(setting, limit, work, first, run.work.rows);
      assert selected + [] == selected;
      assert run == SelectFrom(setting, limit, next, selected + more, rest);
      SelectionMeaning(setting, limit, next, selected + more, rest);
      hide SelectFrom;
      forall item ensures item in run.result.value <==>
        item in selected || (item.listing in listings && IsSelected(setting, run.work.rows, item))
      {
        assert item.listing in listings <==> item.listing == first || item.listing in rest;
      }
    }
  }

  /** The row a look-up has settled is still there when the run ends. */
  lemma RowStays(setting: Setting, limit: Option<nat>, work: Work, first: Listing, rest: seq<Listing>)
    requires Ensure(setting, limit, work, first.listId).result.Ok?
    ensures var load := Ensure(setting, limit, work, first.listId);
      && first.listId in load.work.rows
      && forall more :: first.listId in SelectFrom(setting, limit, load.work, more, rest).work.rows
           && SelectFrom(setting, limit, load.work, more, rest).work.rows[first.listId] == load.work.rows[first.listId]
  {
    hide Ensure;
    EnsureFollows(setting, limit, work, first.listId);
    var load := Ensure(setting, limit, work, first.listId);
    forall more
      ensures first.listId in SelectFrom(setting, limit, load.work, more, rest).work.rows
        && SelectFrom(setting, limit, load.work, more, rest).work.rows[first.listId] == load.work.rows[first.listId]
    {
      SelectFollows(setting, limit, load.work, more, rest);
    }
  }
}

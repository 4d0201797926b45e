/**
 * What the transactions leave in the tables, said column by column and row by row: nothing here speaks
 * of how the rows are computed.
 */
module StoreMeaning {
  import opened Basics
  import opened Feed
  import opened WatermarkTraversal
  import opened CanonicalQueries
  import opened MonitorStore

  // ----- listing rows

  /** `x` is the last listing of the list with its id. */
  ghost predicate IsLast(listings: seq<Listing>, x: Listing) {
    exists k | 0 <= k < |listings| ::
      listings[k] == x && forall j | k < j < |listings| :: listings[j].listId != x.listId
  }

  /** Every listing of the list is stored, the last of each id. */
  ghost predicate AllStored(listings: seq<Listing>, after: map<ListingId, Listing>) {
    forall x | x in listings :: x.listId in after && after[x.listId].listId == x.listId && IsLast(listings, after[x.listId])
  }

  ghost predicate Unlisted(listings: seq<Listing>, id: ListingId) {
    forall x | x in listings :: x.listId != id
  }

  /** Every row with another id is as it was. */
  ghost predicate OthersKept(before: map<ListingId, Listing>, listings: seq<Listing>, after: map<ListingId, Listing>) {
    forall id | Unlisted(listings, id) ::
      (id in after <==> id in before) && (id in after ==> after[id] == before[id])
  }

  ghost predicate ListingsWritten(before: map<ListingId, Listing>, listings: seq<Listing>, after: map<ListingId, Listing>) {
    AllStored(listings, after) && OthersKept(before, listings, after)
  }

  lemma {:induction false} ListingsAreWritten(table: map<ListingId, Listing>, listings: seq<Listing>)
    ensures ListingsWritten(table, listings, UpsertListings(table, listings))
  {
    if listings != [] {
      hide AllStored, OthersKept;
      var front, last := listings[..|listings| - 1], listings[|listings| - 1];
      ListingsAreWritten(table, front);
      assert listings == front + [last];
      OneMoreStored(front, UpsertListings(table, front), last);
      OneMoreKept(table, front, UpsertListings(table, front), last);
    }
  }

  lemma OneMoreStored(front: seq<Listing>, before: map<ListingId, Listing>, last: Listing)
    requires AllStored(front, before)
    ensures AllStored(front + [last], before[last.listId := last])
  {
    var listings, after := front + [last], before[last.listId := last];
    assert listings[|front|] == last && IsLast(listings, last);
    hide IsLast;
    forall x | x in listings ensures x.listId in after && after[x.listId].listId == x.listId && IsLast(listings, after[x.listId]) {
      if x.listId != last.listId {
        assert x in front;
        IsLastExtends(front, last, before[x.listId]);
      }
    }
  }

  lemma OneMoreKept(table: map<ListingId, Listing>, front: seq<Listing>, before: map<ListingId, Listing>, last: Listing)
    requires OthersKept(table, front, before)
    ensures OthersKept(table, front + [last], before[last.listId := last])
  {
    var listings := front + [last];
    assert listings[|front|] == last;
    forall id | Unlisted(listings, id) ensures id != last.listId && Unlisted(front, id) {
      assert last in listings && forall x | x in front :: x in listings;
    }
  }

  lemma IsLastExtends(front: seq<Listing>, last: Listing, x: Listing)
    requires IsLast(front, x) && x.listId != last.listId
    ensures IsLast(front + [last], x)
  {
    var k :| 0 <= k < |front| && front[k] == x && forall j | k < j < |front| :: front[j].listId != x.listId;
    assert (front + [last])[k] == x;
  }

  // ----- match rows

  /** `row` is the selection of the first selected listing with this id. */
  ghost predicate FirstSelected(items: seq<SelectedListing>, listId: ListingId, row: Selection) {
    exists i | 0 <= i < |items| ::
      && items[i].listing.listId == listId && items[i].selection == row
      && forall j | 0 <= j < i :: items[j].listing.listId != listId
  }

  /** Rows that stood stay; every selected listing without one gets the first selection made for it. */
  ghost predicate MatchesWritten(before: map<(MonitorId, ListingId), Selection>, monitorId: MonitorId,
                                 items: seq<SelectedListing>, after: map<(MonitorId, ListingId), Selection>)
  {
    forall key ::
      && (key in after <==>
            (key in before || (key.0 == monitorId && exists item | item in items :: item.listing.listId == key.1)))
      && (key in before ==> after[key] == before[key])
      && (key in after && key !in before ==> FirstSelected(items, key.1, after[key]))
  }

  lemma {:induction false} MatchesAreWritten(table: map<(MonitorId, ListingId), Selection>, monitorId: MonitorId,
                                             items: seq<SelectedListing>)
    ensures MatchesWritten(table, monitorId, items, InsertMatches(table, monitorId, items))
  {
    var after := InsertMatches(table, monitorId, items);
    if items != [] {
      var front := items[..|items| - 1];
      var last := items[|items| - 1];
      var before := InsertMatches(table, monitorId, front);
      MatchesAreWritten(table, monitorId, front);
      assert items == front + [last];
      forall key
        ensures (key in after <==>
              (key in table || (key.0 == monitorId && exists item | item in items :: item.listing.listId == key.1)))
        ensures key in table ==> after[key] == table[key]
        ensures key in after && key !in table ==> FirstSelected(items, key.1, after[key])
      {
        if key in before && key !in table {
          FirstSelectedExtends(front, last, key.1, before[key]);
        }
        if key !in before && key == (monitorId, last.listing.listId) {
          assert items[|items| - 1].selection == after[key];
          forall j | 0 <= j < |front| ensures items[j].listing.listId != key.1 {
            assert front[j] in front;
          }
        }
      }
    }
  }

  lemma FirstSelectedExtends(front: seq<SelectedListing>, last: SelectedListing, listId: ListingId, selection: Selection)
    requires FirstSelected(front, listId, selection)
    ensures FirstSelected(front + [last], listId, selection)
  {
    var items := front + [last];
    var i :| 0 <= i < |front| && front[i].listing.listId == listId && front[i].selection == selection
             && forall j | 0 <= j < i :: front[j].listing.listId != listId;
    assert items[i] == front[i] && forall j | 0 <= j < i :: items[j] == front[j];
  }

  // ----- run rows

  /** The given run row, or a new one, holds the outcome and the counts; no other row changes. */
  ghost predicate RunWritten(before: Tables, runId: Option<RunId>, monitorId: MonitorId, outcome: RunOutcome,
                             seen: nat, matched: nat, after: Tables)
  {
    var id := if runId.Some? then runId.value else before.nextRunId;
    && after.runs.Keys == before.runs.Keys + {id}
    && after.runs[id].outcome == outcome && after.runs[id].seen == seen && after.runs[id].matched == matched
    && after.runs[id].monitorId == (if runId.Some? && id in before.runs then before.runs[id].monitorId else monitorId)
    && (forall other | other in before.runs && other != id :: after.runs[other] == before.runs[other])
    && after.nextRunId == (if runId.Some? then before.nextRunId else before.nextRunId + 1)
  }

  ghost predicate RunIdsBelowNext(db: Tables) {
    forall id | id in db.runs :: id < db.nextRunId
  }

  ghost predicate OtherCursorsKept(before: Tables, monitorId: MonitorId, after: Tables) {
    && after.cursors.Keys == before.cursors.Keys + {monitorId}
    && forall m | m in before.cursors && m != monitorId :: after.cursors[m] == before.cursors[m]
  }

  // ----- the commit of a run

  /** The candidates, the matches of what was selected, the run row and the cursor with its new revision. */
  ghost predicate CommitWritten(db: Tables, input: RunCommit, after: Tables) {
    && ListingsWritten(db.listings, input.candidates, after.listings)
    && MatchesWritten(db.matches, input.monitorId, input.selected, after.matches)
    && RunWritten(db, input.runId, input.monitorId, if input.traversal.Incomplete? then Catchup else Success,
                  |input.candidates|, |input.selected|, after)
    && OtherCursorsKept(db, input.monitorId, after)
    && after.cursors[input.monitorId].updatedAt == after.revision == db.revision + 1
    && after.monitors == db.monitors
  }

  /**
   * A run's commit is accepted exactly when its monitor is there, the cursor still has the revision the
   * run read, and the run row, if one was given, exists. What it then writes is all it changes.
   */
  lemma CommitRunWrites(db: Tables, input: RunCommit)
    requires !input.traversal.Failed?
    ensures var r := CommitRun(db, input);
      var undisturbed := input.monitorId in db.monitors && input.monitorId in db.cursors
        && db.cursors[input.monitorId].updatedAt == input.expectedCursorUpdatedAt;
      && (r.Ok? <==> undisturbed && (input.runId.None? || input.runId.value in db.runs))
      && (r.Err? ==> r.error == if undisturbed then RunNotFound else StaleMonitorRun)
      && (r.Ok? ==> CommitWritten(db, input, r.value))
  {
    hide UpsertListings, InsertMatches, ListingsWritten, MatchesWritten;
    ListingsAreWritten(db.listings, input.candidates);
    MatchesAreWritten(db.matches, input.monitorId, input.selected);
  }

  /** No match is left without its listing, as long as what is selected was a candidate. */
  lemma MatchesHaveListings(db: Tables, input: RunCommit)
    requires !input.traversal.Failed? && CommitRun(db, input).Ok?
    requires forall item | item in input.selected :: item.listing in input.candidates
    requires forall key | key in db.matches :: key.1 in db.listings
    ensures var after := CommitRun(db, input).value;
      forall key | key in after.matches :: key.1 in after.listings
  {
    hide UpsertListings, InsertMatches, AdvanceCursor, CommitRun;
    CommitRunWrites(db, input);
    var after := CommitRun(db, input).value;
    forall key | key in after.matches ensures key.1 in after.listings {
      if key in db.matches {
        assert key.1 in db.listings;
      } else {
        var item :| item in input.selected && item.listing.listId == key.1;
        assert item.listing in input.candidates;
      }
    }
  }

  lemma RunIdsStayBelowNext(before: Tables, runId: Option<RunId>, monitorId: MonitorId, outcome: RunOutcome,
                            seen: nat, matched: nat, after: Tables)
    requires RunIdsBelowNext(before) && (runId.None? || runId.value in before.runs)
    requires RunWritten(before, runId, monitorId, outcome, seen, matched, after)
    ensures RunIdsBelowNext(after)
    ensures runId.None? ==> before.nextRunId !in before.runs
  {
  }

  // ----- the commit of a cold start

  /** The monitor's source is as it was read. */
  ghost predicate SourceKept(db: Tables, input: ColdStartCommit) {
    && input.monitorId in db.monitors
    && input.source.sourceUrl == db.monitors[input.monitorId].sourceUrl
    && CanonicalQueryEquals(input.source.query, db.monitors[input.monitorId].query)
    && (input.source.state == Archived ==> db.monitors[input.monitorId].state == Archived)
  }

  /** The cursor is the missing or uninitialised one that was read. */
  ghost predicate CursorKept(db: Tables, input: ColdStartCommit) {
    if input.expectedCursor.Missing? then input.monitorId !in db.cursors
    else
      && input.monitorId in db.cursors && db.cursors[input.monitorId].boundaryTime.None?
      && db.cursors[input.monitorId].updatedAt == input.expectedCursor.updatedAt
  }

  /**
   * A cold start's commit is accepted exactly when the monitor's source is as it was read, the cursor is
   * still the missing or uninitialised one that was read, and the run row, if one was given, exists. The
   * new cursor holds the baseline as its boundary and, where there was none, an empty catch-up.
   */
  lemma CommitColdStartWrites(db: Tables, input: ColdStartCommit)
    ensures var r := CommitColdStart(db, input);
      var undisturbed := SourceKept(db, input) && CursorKept(db, input);
      && (r.Ok? <==> undisturbed && (input.runId.None? || input.runId.value in db.runs))
      && (r.Err? ==> r.error == if undisturbed then RunNotFound else StaleColdStart)
      && (r.Ok? ==>
            && ListingsWritten(db.listings, input.listings, r.value.listings)
            && RunWritten(db, input.runId, input.monitorId, Success, |input.listings|, 0, r.value)
            && BaselineWritten(db, input.monitorId, input.nextWatermark, r.value)
            && r.value.monitors == db.monitors && r.value.matches == db.matches)
  {
    hide UpsertListings, ListingsWritten, CanonicalQueryEquals;
    ListingsAreWritten(db.listings, input.listings);
  }

  ghost predicate BaselineWritten(before: Tables, m: MonitorId, watermark: Watermark, after: Tables) {
    && OtherCursorsKept(before, m, after)
    && var row := after.cursors[m];
       && row.boundaryTime == Some(watermark.boundaryTime)
       && row.boundaryIds == StringArray(watermark.boundaryIds)
       && row.updatedAt == after.revision == before.revision + 1
       && row.catchupCursor == (if m in before.cursors then before.cursors[m].catchupCursor else None)
       && row.catchupBoundaryTime == (if m in before.cursors then before.cursors[m].catchupBoundaryTime else None)
       && row.catchupBoundaryIds == (if m in before.cursors then before.cursors[m].catchupBoundaryIds else StringArray([]))
       && row.catchupLastListTime == (if m in before.cursors then before.cursors[m].catchupLastListTime else None)
       && row.catchupLastListId == (if m in before.cursors then before.cursors[m].catchupLastListId else None)
  }

  // ----- edits

  /** A refused edit breaks one of these; `EditMeaning` says that nothing else refuses one. */
  ghost predicate Acceptable(db: Tables, m: MonitorId, patch: ConfigPatch, rules: UrlRules) {
    && m in db.monitors
    && (patch.intervalSec.Some? ==> rules.interval(patch.intervalSec.value))
    && (patch.keywords.Some? ==> forall k | 0 <= k < |patch.keywords.value| :: rules.term(patch.keywords.value[k]))
    && (patch.sourceUrl.Some? ==>
          rules.parse(patch.sourceUrl.value).Some? && rules.supported(rules.parse(patch.sourceUrl.value).value))
    && (patch.query.Some? ==> rules.storable(patch.query.value) && rules.supported(patch.query.value))
    && (patch.sourceUrl.Some? && patch.query.Some? ==>
          CanonicalQueryEquals(rules.parse(patch.sourceUrl.value).value, patch.query.value))
  }

  /** The query of the edited monitor: the one given, the one the new URL parses to, or the old one. */
  ghost predicate QueryEdited(before: Monitor, patch: ConfigPatch, rules: UrlRules, after: Monitor) {
    && (patch.query.Some? ==> after.query == patch.query.value)
    && (patch.query.None? && patch.sourceUrl.Some? ==> Some(after.query) == rules.parse(patch.sourceUrl.value))
    && (patch.query.None? && patch.sourceUrl.None? ==> after.query == before.query)
    && (patch.sourceUrl.Some? ==>
          var parsed := rules.parse(patch.sourceUrl.value);
          parsed.Some? && CanonicalQueryEquals(parsed.value, after.query))
    && (patch.sourceUrl.Some? || patch.query.Some? ==> rules.supported(after.query))
  }

  ghost predicate Patched<T(!new)>(change: Option<T>, before: T, after: T) {
    match change case Some(value) => after == value case None => after == before
  }

  /**
   * An edit is accepted exactly when every check of what it carries passes. An accepted one stores what
   * it carries and keeps the rest; the cursor survives exactly when URL and query stay canonically the
   * same and the monitor does not leave the archive. Nothing else changes.
   */
  lemma EditMeaning(db: Tables, m: MonitorId, patch: ConfigPatch, rules: UrlRules)
    ensures UpdateMonitorConfig(db, m, patch, rules).Ok? <==> Acceptable(db, m, patch, rules)
    ensures UpdateMonitorConfig(db, m, patch, rules).Ok? ==>
      var after := UpdateMonitorConfig(db, m, patch, rules).value;
      && m in db.monitors && after.monitors.Keys == db.monitors.Keys
      && (forall other | other in db.monitors && other != m :: after.monitors[other] == db.monitors[other])
      && var x, y := db.monitors[m], after.monitors[m];
         && QueryEdited(x, patch, rules, y)
         && Patched(patch.sourceUrl, x.sourceUrl, y.sourceUrl)
         && Patched(patch.state, x.state, y.state)
         && Patched(patch.name, x.name, y.name)
         && Patched(patch.intervalSec, x.intervalSec, y.intervalSec)
         && Patched(patch.keywords, x.keywords, y.keywords)
         && Patched(patch.searchInDescription, x.searchInDescription, y.searchInDescription)
         && (m in after.cursors <==>
               m in db.cursors && x.sourceUrl == y.sourceUrl && CanonicalQueryEquals(x.query, y.query)
               && (x.state == Archived ==> y.state == Archived))
         && after.cursors.Keys - {m} == db.cursors.Keys - {m}
         && (forall other | other in after.cursors :: after.cursors[other] == db.cursors[other])
    ensures UpdateMonitorConfig(db, m, patch, rules).Ok? ==>
      var after := UpdateMonitorConfig(db, m, patch, rules).value;
      after == db.(monitors := after.monitors, cursors := after.cursors)
  {
    hide CanonicalQueryEquals;
    EqualsItself();
  }

  lemma EqualsItself()
    ensures forall q :: CanonicalQueryEquals(q, q)
  {
    forall q ensures CanonicalQueryEquals(q, q) {
      CanonicalQueryEqualsIsMeaning(q, q);
    }
  }

  /** The error of a refused edit: the first check that fails, in this order. */
  lemma EditError(db: Tables, m: MonitorId, patch: ConfigPatch, rules: UrlRules)
    requires UpdateMonitorConfig(db, m, patch, rules).Err?
    ensures var error := UpdateMonitorConfig(db, m, patch, rules).error;
      var parsed := if patch.sourceUrl.Some? then rules.parse(patch.sourceUrl.value) else None;
      var badInterval := patch.intervalSec.Some? && !rules.interval(patch.intervalSec.value);
      var badTerm := patch.keywords.Some? && !ValidTerms(rules, patch.keywords.value);
      var badUrl := patch.sourceUrl.Some? && parsed.None?;
      var badQuery := patch.query.Some? && !rules.storable(patch.query.value);
      && (error == UnsupportedInterval <==> badInterval)
      && (error == InvalidTerm <==> !badInterval && badTerm)
      && (error == MonitorNotFound <==> !badInterval && !badTerm && m !in db.monitors)
      && (error == InvalidSourceUrl <==> !badInterval && !badTerm && m in db.monitors && badUrl)
      && (error == InvalidQuery <==> !badInterval && !badTerm && m in db.monitors && !badUrl && badQuery)
      && (error == SourceQueryMismatch ==>
            parsed.Some? && patch.query.Some? && rules.supported(parsed.value) && rules.supported(patch.query.value)
            && !CanonicalQueryEquals(parsed.value, patch.query.value))
      && (error == UnsupportedQuery ==>
            (parsed.Some? && !rules.supported(parsed.value)) || (patch.query.Some? && !rules.supported(patch.query.value)))
  {
    hide CanonicalQueryEquals;
  }
}

/**
 * The worker's tables and the three transactions that touch a monitor's cursor: committing an
 * incremental run, committing a cold start, and editing the monitor. A transaction that fails
 * leaves every table as it was. Every cursor write gets a revision (`updatedAt`) never used before.
 */
module MonitorStore {
  import opened Basics
  import opened Feed
  import opened WatermarkTraversal
  import opened CanonicalQueries

  type MonitorId = nat
  type RunId = nat

  datatype MonitorState = Active | Paused | Archived

  /** A monitor row. Its source identity, which a cold start remembers, is the first three columns. */
  datatype Monitor = Monitor(
    sourceUrl: string,
    query: CanonicalQuery,
    state: MonitorState,
    name: string,
    intervalSec: int,
    keywords: seq<string>,
    searchInDescription: bool)

  /** A JSON column that should hold an array of strings. */
  datatype Json = StringArray(items: seq<string>) | OtherJson

  datatype CursorRow = CursorRow(
    boundaryTime: Option<Instant>,
    boundaryIds: Json,
    catchupCursor: Option<Cursor>,
    catchupBoundaryTime: Option<Instant>,
    catchupBoundaryIds: Json,
    catchupLastListTime: Option<Instant>,
    catchupLastListId: Option<ListingId>,
    updatedAt: nat)

  datatype Selection = Selection(matchedTerms: seq<string>, matchedIn: seq<string>, snippet: Option<string>)

  datatype SelectedListing = SelectedListing(listing: Listing, selection: Selection)

  datatype RunOutcome = Running | Success | Catchup | Skipped | Errored | Interrupted

  datatype RunRow = RunRow(monitorId: MonitorId, outcome: RunOutcome, seen: nat, matched: nat)

  datatype Tables = Tables(
    monitors: map<MonitorId, Monitor>,
    cursors: map<MonitorId, CursorRow>,
    listings: map<ListingId, Listing>,
    matches: map<(MonitorId, ListingId), Selection>,
    runs: map<RunId, RunRow>,
    nextRunId: RunId,
    revision: nat)

  datatype StoreError =
    | StaleMonitorRun
    | StaleColdStart
    | RunNotFound
    | MonitorNotFound
    | UnsupportedInterval
    | InvalidTerm
    | InvalidQuery
    | InvalidSourceUrl
    | UnsupportedQuery
    | SourceQueryMismatch

  // ----- specification of the row writes

  function UpsertListings(table: map<ListingId, Listing>, listings: seq<Listing>): map<ListingId, Listing> {
    if listings == [] then table else
      var last := listings[|listings| - 1];
      UpsertListings(table, listings[..|listings| - 1])[last.listId := last]
  }

  /** An existing match row is left exactly as it is (`update: {}`). */
  function InsertMatch(table: map<(MonitorId, ListingId), Selection>, monitorId: MonitorId, item: SelectedListing)
    : map<(MonitorId, ListingId), Selection>
  {
    var key := (monitorId, item.listing.listId);
    if key in table then table else table[key := item.selection]
  }

  function InsertMatches(table: map<(MonitorId, ListingId), Selection>, monitorId: MonitorId,
                         selected: seq<SelectedListing>): map<(MonitorId, ListingId), Selection>
  {
    if selected == [] then table
    else InsertMatch(InsertMatches(table, monitorId, selected[..|selected| - 1]), monitorId,
                     selected[|selected| - 1])
  }

  /** The cursor row after a traversal that did not fail. */
  function AdvanceCursor(row: CursorRow, traversal: Traversal, revision: nat): CursorRow
    requires !traversal.Failed?
  {
    if traversal.Incomplete? then
      var saved := traversal.checkpoint;
      row.(catchupCursor := Some(saved.resumeCursor),
           catchupBoundaryTime := Some(saved.pendingWatermark.boundaryTime),
           catchupBoundaryIds := StringArray(saved.pendingWatermark.boundaryIds),
           catchupLastListTime :=
             (if saved.lastObservation.None? then None else Some(saved.lastObservation.value.listTime)),
           catchupLastListId :=
             (if saved.lastObservation.None? then None else Some(saved.lastObservation.value.listId)),
           updatedAt := revision)
    else
      CursorRow(Some(traversal.nextWatermark.boundaryTime), StringArray(traversal.nextWatermark.boundaryIds),
                None, None, StringArray([]), None, None, revision)
  }

  // ----- specification of the transactions

  datatype RunCommit = RunCommit(
    monitorId: MonitorId,
    runId: Option<RunId>,
    expectedCursorUpdatedAt: nat,
    candidates: seq<Listing>,
    selected: seq<SelectedListing>,
    traversal: Traversal)

  function RecordRun(db: Tables, runId: Option<RunId>, row: RunRow): Result<Tables, StoreError> {
    if runId.None? then Ok(db.(runs := db.runs[db.nextRunId := row], nextRunId := db.nextRunId + 1))
    else if runId.value in db.runs then
      Ok(db.(runs := db.runs[runId.value := row.(monitorId := db.runs[runId.value].monitorId)]))
    else Err(RunNotFound)
  }

  predicate CurrentRevision(db: Tables, input: RunCommit) {
    input.monitorId in db.monitors && input.monitorId in db.cursors
    && db.cursors[input.monitorId].updatedAt == input.expectedCursorUpdatedAt
  }

  function CommitRun(db: Tables, input: RunCommit): Result<Tables, StoreError>
    requires !input.traversal.Failed?
  {
    if !CurrentRevision(db, input) then Err(StaleMonitorRun) else
      var written := db.(
        listings := UpsertListings(db.listings, input.candidates),
        matches := InsertMatches(db.matches, input.monitorId, input.selected),
        revision := db.revision + 1,
        cursors := db.cursors[input.monitorId :=
          AdvanceCursor(db.cursors[input.monitorId], input.traversal, db.revision + 1)]);
      RecordRun(written, input.runId,
                RunRow(input.monitorId, if input.traversal.Incomplete? then Catchup else Success,
                       |input.candidates|, |input.selected|))
  }

  datatype ColdStartCursor = Missing | Uninitialized(updatedAt: nat)

  datatype ColdStartCommit = ColdStartCommit(
    monitorId: MonitorId,
    runId: Option<RunId>,
    source: Monitor,
    expectedCursor: ColdStartCursor,
    listings: seq<Listing>,
    nextWatermark: Watermark)

  predicate ShouldResetMonitorCursor(before: Monitor, after: Monitor) {
    || before.sourceUrl != after.sourceUrl
    || !CanonicalQueryEquals(before.query, after.query)
    || (before.state == Archived && after.state != Archived)
  }

  predicate CurrentColdStartState(db: Tables, input: ColdStartCommit) {
    && input.monitorId in db.monitors
    && !ShouldResetMonitorCursor(input.source, db.monitors[input.monitorId])
    && match input.expectedCursor
       case Missing => input.monitorId !in db.cursors
       case Uninitialized(updatedAt) =>
         && input.monitorId in db.cursors
         && db.cursors[input.monitorId].boundaryTime.None?
         && db.cursors[input.monitorId].updatedAt == updatedAt
  }

  function CommitColdStart(db: Tables, input: ColdStartCommit): Result<Tables, StoreError> {
    if !CurrentColdStartState(db, input) then Err(StaleColdStart) else
      var row := if input.monitorId in db.cursors then db.cursors[input.monitorId]
                 else CursorRow(None, StringArray([]), None, None, StringArray([]), None, None, 0);
      var written := db.(
        listings := UpsertListings(db.listings, input.listings),
        revision := db.revision + 1,
        cursors := db.cursors[input.monitorId := row.(
          boundaryTime := Some(input.nextWatermark.boundaryTime),
          boundaryIds := StringArray(input.nextWatermark.boundaryIds),
          updatedAt := db.revision + 1)]);
      RecordRun(written, input.runId, RunRow(input.monitorId, Success, |input.listings|, 0))
  }

  datatype ConfigPatch = ConfigPatch(
    name: Option<string>,
    sourceUrl: Option<string>,
    query: Option<CanonicalQuery>,
    intervalSec: Option<int>,
    keywords: Option<seq<string>>,
    searchInDescription: Option<bool>,
    state: Option<MonitorState>)

  /** What other components say of intervals, terms, URLs and queries. */
  datatype UrlRules = UrlRules(
    interval: int -> bool,
    term: string -> bool,
    parse: string -> Option<CanonicalQuery>,
    storable: CanonicalQuery -> bool,
    supported: CanonicalQuery -> bool)

  function Or<T>(change: Option<T>, current: T): T { if change.Some? then change.value else current }

  predicate ValidTerms(rules: UrlRules, terms: seq<string>) {
    forall k | 0 <= k < |terms| :: rules.term(terms[k])
  }

  function PatchedMonitor(current: Monitor, patch: ConfigPatch, rules: UrlRules): Result<Monitor, StoreError> {
    var sourceQuery := if patch.sourceUrl.None? then None else rules.parse(patch.sourceUrl.value);
    if patch.sourceUrl.Some? && sourceQuery.None? then Err(InvalidSourceUrl)
    else if patch.query.Some? && !rules.storable(patch.query.value) then Err(InvalidQuery)
    else
      var nextQuery := if patch.query.Some? then patch.query.value
                       else if sourceQuery.Some? then sourceQuery.value else current.query;
      if sourceQuery.Some? && !rules.supported(sourceQuery.value) then Err(UnsupportedQuery)
      else if (patch.sourceUrl.Some? || patch.query.Some?) && !rules.supported(nextQuery) then Err(UnsupportedQuery)
      else if sourceQuery.Some? && patch.query.Some? && !CanonicalQueryEquals(sourceQuery.value, nextQuery) then
        Err(SourceQueryMismatch)
      else Ok(Monitor(Or(patch.sourceUrl, current.sourceUrl), nextQuery, Or(patch.state, current.state),
                      Or(patch.name, current.name), Or(patch.intervalSec, current.intervalSec),
                      Or(patch.keywords, current.keywords), Or(patch.searchInDescription, current.searchInDescription)))
  }

  function UpdateMonitorConfig(db: Tables, monitorId: MonitorId, patch: ConfigPatch, rules: UrlRules)
    : Result<Tables, StoreError>
  {
    if patch.intervalSec.Some? && !rules.interval(patch.intervalSec.value) then Err(UnsupportedInterval)
    else if patch.keywords.Some? && !ValidTerms(rules, patch.keywords.value) then Err(InvalidTerm)
    else if monitorId !in db.monitors then Err(MonitorNotFound) else
      var before := db.monitors[monitorId];
      match PatchedMonitor(before, patch, rules)
      case Err(error) => Err(error)
      case Ok(after) =>
        Ok(db.(monitors := db.monitors[monitorId := after],
               cursors := if ShouldResetMonitorCursor(before, after) then db.cursors - {monitorId}
                          else db.cursors))
  }

  // ----- the tables as the worker writes them

  class Database {
    var monitors: map<MonitorId, Monitor>
    var cursors: map<MonitorId, CursorRow>
    var listings: map<ListingId, Listing>
    var matches: map<(MonitorId, ListingId), Selection>
    var runs: map<RunId, RunRow>
    var nextRunId: RunId
    var revision: nat

    function State(): Tables
      reads this
    {
      Tables(monitors, cursors, listings, matches, runs, nextRunId, revision)
    }

    /** Aborting a transaction. */
    method Rollback(saved: Tables)
      modifies this
      ensures State() == saved
    {
      monitors, cursors, listings, matches := saved.monitors, saved.cursors, saved.listings, saved.matches;
      runs, nextRunId, revision := saved.runs, saved.nextRunId, saved.revision;
    }

    method PersistListings(rows: seq<Listing>)
      modifies this`listings
      ensures listings == UpsertListings(old(listings), rows)
    {
      var i := 0;
      while i < |rows|
        invariant i <= |rows|
        invariant listings == UpsertListings(old(listings), rows[..i])
      {
        listings := listings[rows[i].listId := rows[i]];
        assert rows[..i + 1][..i] == rows[..i];
        i := i + 1;
      }
      assert rows[..i] == rows;
    }

    method PersistListingsAndMatches(input: RunCommit)
      modifies this`listings, this`matches
      ensures listings == UpsertListings(old(listings), input.candidates)
      ensures matches == InsertMatches(old(matches), input.monitorId, input.selected)
    {
      PersistListings(input.candidates);
      var i := 0;
      while i < |input.selected|
        invariant i <= |input.selected|
        invariant listings == UpsertListings(old(listings), input.candidates)
        invariant matches == InsertMatches(old(matches), input.monitorId, input.selected[..i])
      {
        var item := input.selected[i];
        var key := (input.monitorId, item.listing.listId);
        if key !in matches {
          matches := matches[key := item.selection];
        }
        assert input.selected[..i + 1][..i] == input.selected[..i];
        i := i + 1;
      }
      assert input.selected[..i] == input.selected;
    }

    method RecordRunRow(runId: Option<RunId>, row: RunRow) returns (found: bool)
      modifies this`runs, this`nextRunId
      ensures found <==> RecordRun(old(State()), runId, row).Ok?
      ensures State() == if found then RecordRun(old(State()), runId, row).value else old(State())
    {
      if runId.None? {
        runs, nextRunId := runs[nextRunId := row], nextRunId + 1;
        return true;
      }
      if runId.value !in runs {
        return false;
      }
      runs := runs[runId.value := row.(monitorId := runs[runId.value].monitorId)];
      return true;
    }

    method PersistMonitorRunTransaction(input: RunCommit) returns (r: Option<StoreError>)
      requires !input.traversal.Failed?
      modifies this
      ensures match CommitRun(old(State()), input)
        case Ok(after) => r == None && State() == after
        case Err(error) => r == Some(error) && State() == old(State())
    {
      var saved := State();
      if input.monitorId !in monitors || input.monitorId !in cursors
         || cursors[input.monitorId].updatedAt != input.expectedCursorUpdatedAt {
        return Some(StaleMonitorRun);
      }
      PersistListingsAndMatches(input);
      revision := revision + 1;
      cursors := cursors[input.monitorId := AdvanceCursor(cursors[input.monitorId], input.traversal, revision)];
      var recorded := RecordRunRow(
        input.runId, RunRow(input.monitorId, if input.traversal.Incomplete? then Catchup else Success,
                            |input.candidates|, |input.selected|));
      if !recorded {
        Rollback(saved);
        return Some(RunNotFound);
      }
      r := None;
    }

    method PersistColdStartBaselineTransaction(input: ColdStartCommit) returns (r: Option<StoreError>)
      modifies this
      ensures match CommitColdStart(old(State()), input)
        case Ok(after) => r == None && State() == after
        case Err(error) => r == Some(error) && State() == old(State())
    {
      var saved := State();
      if input.monitorId !in monitors
         || ShouldResetMonitorCursor(input.source, monitors[input.monitorId]) {
        return Some(StaleColdStart);
      }
      if input.expectedCursor.Missing? {
        if input.monitorId in cursors {
          return Some(StaleColdStart);
        }
      } else if input.monitorId !in cursors || cursors[input.monitorId].boundaryTime.Some?
                || cursors[input.monitorId].updatedAt != input.expectedCursor.updatedAt {
        return Some(StaleColdStart);
      }
      PersistListings(input.listings);
      revision := revision + 1;
      if input.monitorId in cursors {
        cursors := cursors[input.monitorId := cursors[input.monitorId].(
          boundaryTime := Some(input.nextWatermark.boundaryTime),
          boundaryIds := StringArray(input.nextWatermark.boundaryIds),
          updatedAt := revision)];
      } else {
        cursors := cursors[input.monitorId := CursorRow(
          Some(input.nextWatermark.boundaryTime), StringArray(input.nextWatermark.boundaryIds),
          None, None, StringArray([]), None, None, revision)];
      }
      var recorded := RecordRunRow(input.runId, RunRow(input.monitorId, Success, |input.listings|, 0));
      if !recorded {
        Rollback(saved);
        return Some(RunNotFound);
      }
      r := None;
    }

    method UpdateMonitorConfigTransaction(monitorId: MonitorId, patch: ConfigPatch, rules: UrlRules)
      returns (r: Option<StoreError>)
      modifies this`monitors, this`cursors
      ensures match UpdateMonitorConfig(old(State()), monitorId, patch, rules)
        case Ok(after) => r == None && State() == after
        case Err(error) => r == Some(error) && State() == old(State())
    {
      if patch.intervalSec.Some? && !rules.interval(patch.intervalSec.value) {
        return Some(UnsupportedInterval);
      }
      if patch.keywords.Some? {
        var valid := ValidateMatchingTerms(rules, patch.keywords.value);
        if !valid {
          return Some(InvalidTerm);
        }
      }
      if monitorId !in monitors {
        return Some(MonitorNotFound);
      }
      var before := monitors[monitorId];
      var patched := PatchMonitor(before, patch, rules);
      if patched.Err? {
        return Some(patched.error);
      }
      var after := patched.value;
      monitors := monitors[monitorId := after];
      if ShouldResetMonitorCursor(before, after) {
        cursors := cursors - {monitorId};
      }
      r := None;
    }
  }

  /** The checks of a patch against a monitor, and the columns it changes. */
  method PatchMonitor(before: Monitor, patch: ConfigPatch, rules: UrlRules) returns (r: Result<Monitor, StoreError>)
    ensures r == PatchedMonitor(before, patch, rules)
  {
    hide CanonicalQueryEquals;
    var sourceQuery: Option<CanonicalQuery> := None;
    if patch.sourceUrl.Some? {
      sourceQuery := rules.parse(patch.sourceUrl.value);
      if sourceQuery.None? {
        return Err(InvalidSourceUrl);
      }
    }
    var nextQuery := before.query;
    if patch.query.Some? {
      nextQuery := patch.query.value;
    } else if sourceQuery.Some? {
      nextQuery := sourceQuery.value;
    }
    if patch.query.Some? && !rules.storable(patch.query.value) {
      return Err(InvalidQuery);
    }
    if patch.sourceUrl.Some? || patch.query.Some? {
      if sourceQuery.Some? && !rules.supported(sourceQuery.value) {
        return Err(UnsupportedQuery);
      }
      if !rules.supported(nextQuery) {
        return Err(UnsupportedQuery);
      }
      if sourceQuery.Some? && patch.query.Some? && !CanonicalQueryEquals(sourceQuery.value, nextQuery) {
        return Err(SourceQueryMismatch);
      }
    }
    var after := before;
    if patch.name.Some? { after := after.(name := patch.name.value); }
    if patch.sourceUrl.Some? { after := after.(sourceUrl := patch.sourceUrl.value); }
    if patch.query.Some? || patch.sourceUrl.Some? { after := after.(query := nextQuery); }
    if patch.intervalSec.Some? { after := after.(intervalSec := patch.intervalSec.value); }
    if patch.keywords.Some? { after := after.(keywords := patch.keywords.value); }
    if patch.searchInDescription.Some? { after := after.(searchInDescription := patch.searchInDescription.value); }
    if patch.state.Some? { after := after.(state := patch.state.value); }
    r := Ok(after);
  }

  method ValidateMatchingTerms(rules: UrlRules, terms: seq<string>) returns (valid: bool)
    ensures valid <==> ValidTerms(rules, terms)
  {
    var k := 0;
    while k < |terms|
      invariant k <= |terms| && forall j | 0 <= j < k :: rules.term(terms[j])
    {
      if !rules.term(terms[k]) {
        return false;
      }
      k := k + 1;
    }
    valid := true;
  }
}

/**
 * Runs, cold starts and configuration edits of many monitors, interleaved in any order. A run reads
 * its snapshot in one step and commits in a later one; every step is one atomic transaction.
 */
module CursorAgreement {
  import opened Basics
  import opened Feed
  import opened WatermarkTraversal
  import opened CanonicalQueries
  import opened MonitorStore
  import opened StoreMeaning
  import opened IncrementalRun

  type JobId = nat

  /** What an incremental run remembers between its read and its commit. */
  datatype RunSnapshot = RunSnapshot(monitorId: MonitorId, query: CanonicalQuery, row: CursorRow)

  datatype ColdSnapshot = ColdSnapshot(monitorId: MonitorId, source: Monitor, expected: ColdStartCursor)

  /**
   * `sources` and `disturbed` are not stored anywhere; they are the history the theorems speak of:
   * the queries whose feeds went into each cursor, and the jobs whose monitor's cursor was written
   * or deleted after their snapshot.
   */
  datatype World = World(
    db: Tables,
    runs: map<JobId, RunSnapshot>,
    coldStarts: map<JobId, ColdSnapshot>,
    sources: map<MonitorId, seq<CanonicalQuery>>,
    disturbed: set<JobId>)

  datatype Action =
    | CreateMonitor(monitorId: MonitorId, monitor: Monitor)
    | EditMonitor(monitorId: MonitorId, patch: ConfigPatch, rules: UrlRules)
    | BeginRun(job: JobId, monitorId: MonitorId)
    | BeginColdStart(job: JobId, monitorId: MonitorId)
    | FinishRun(job: JobId, runId: Option<RunId>, candidates: seq<Listing>,
                selected: seq<SelectedListing>, traversal: Traversal)
    | FinishColdStart(job: JobId, runId: Option<RunId>, listings: seq<Listing>, watermark: Watermark)

  function Jobs(w: World): set<JobId> { w.runs.Keys + w.coldStarts.Keys }

  function JobsOf(w: World, monitorId: MonitorId): set<JobId> {
    set job | job in w.runs.Keys && w.runs[job].monitorId == monitorId
  }

  function RunInput(snapshot: RunSnapshot, a: Action): RunCommit
    requires a.FinishRun?
  {
    RunCommit(snapshot.monitorId, a.runId, snapshot.row.updatedAt, a.candidates, a.selected, a.traversal)
  }

  function ColdInput(snapshot: ColdSnapshot, a: Action): ColdStartCommit
    requires a.FinishColdStart?
  {
    ColdStartCommit(snapshot.monitorId, a.runId, snapshot.source, snapshot.expected, a.listings, a.watermark)
  }

  /** One step. A step that is refused, or makes no sense in `w`, changes nothing. */
  function Next(w: World, a: Action): World {
    match a
    case CreateMonitor(m, monitor) =>
      if m in w.db.monitors || m in w.db.cursors then w
      else w.(db := w.db.(monitors := w.db.monitors[m := monitor]))
    case EditMonitor(m, patch, rules) =>
      (match UpdateMonitorConfig(w.db, m, patch, rules)
       case Err(_) => w
       case Ok(after) =>
         if m in w.db.cursors && m !in after.cursors then
           w.(db := after, sources := w.sources - {m}, disturbed := w.disturbed + JobsOf(w, m))
         else w.(db := after))
    case BeginRun(job, m) =>
      if job in Jobs(w) || m !in w.db.monitors || m !in w.db.cursors || w.db.cursors[m].boundaryTime.None? then w
      else w.(runs := w.runs[job := RunSnapshot(m, w.db.monitors[m].query, w.db.cursors[m])],
              disturbed := w.disturbed - {job})
    case BeginColdStart(job, m) =>
      if job in Jobs(w) || m !in w.db.monitors
         || (m in w.db.cursors && w.db.cursors[m].boundaryTime.Some?) then w
      else
        var expected := if m in w.db.cursors then Uninitialized(w.db.cursors[m].updatedAt) else Missing;
        w.(coldStarts := w.coldStarts[job := ColdSnapshot(m, w.db.monitors[m], expected)])
    case FinishRun(job, _, _, _, traversal) =>
      if job !in w.runs || traversal.Failed? then w else
        var snapshot := w.runs[job];
        var committed := CommitRun(w.db, RunInput(snapshot, a));
        if committed.Err? then w else
          var m := snapshot.monitorId;
          w.(db := committed.value,
             sources := w.sources[m := (if m in w.sources then w.sources[m] else []) + [snapshot.query]],
             disturbed := w.disturbed + JobsOf(w, m))
    case FinishColdStart(job, _, _, _) =>
      if job !in w.coldStarts then w else
        var snapshot := w.coldStarts[job];
        var committed := CommitColdStart(w.db, ColdInput(snapshot, a));
        if committed.Err? then w else
          var m := snapshot.monitorId;
          w.(db := committed.value, sources := w.sources[m := [snapshot.source.query]],
             disturbed := w.disturbed + JobsOf(w, m))
  }

  function Play(w: World, actions: seq<Action>): World {
    if actions == [] then w
    else Next(Play(w, actions[..|actions| - 1]), actions[|actions| - 1])
  }

  /** Before any traversal: no job is running and no cursor is initialised. */
  ghost predicate Initial(w: World) {
    && w.runs == map[] && w.coldStarts == map[] && w.sources == map[] && w.disturbed == {}
    && w.db.cursors.Keys <= w.db.monitors.Keys
    && forall m | m in w.db.cursors ::
         w.db.cursors[m].boundaryTime.None? && w.db.cursors[m].updatedAt <= w.db.revision
  }

  /** Every feed that went into an initialised cursor was the feed of the monitor's current query. */
  ghost predicate CursorsAgree(w: World) {
    forall m | m in w.db.cursors && w.db.cursors[m].boundaryTime.Some? ::
      && m in w.db.monitors && m in w.sources && w.sources[m] != []
      && forall q | q in w.sources[m] :: CanonicalQueryEquals(q, w.db.monitors[m].query)
  }

  ghost predicate RevisionsBounded(w: World) {
    && w.db.cursors.Keys <= w.db.monitors.Keys
    && (forall m | m in w.db.cursors :: w.db.cursors[m].updatedAt <= w.db.revision)
    && (forall job | job in w.runs :: w.runs[job].row.updatedAt <= w.db.revision)
  }

  /**
   * A job's snapshot is still the truth exactly when nothing disturbed it; a disturbed job's
   * revision never comes back.
   */
  ghost predicate SnapshotsTrue(w: World) {
    forall job | job in w.runs ::
      var s := w.runs[job];
      if job in w.disturbed then
        s.monitorId in w.db.cursors ==> w.db.cursors[s.monitorId].updatedAt != s.row.updatedAt
      else
        && s.monitorId in w.db.monitors && s.monitorId in w.db.cursors
        && w.db.cursors[s.monitorId] == s.row
        && s.row.boundaryTime.Some?
        && CanonicalQueryEquals(s.query, w.db.monitors[s.monitorId].query)
  }

  ghost predicate Inv(w: World) {
    CursorsAgree(w) && RevisionsBounded(w) && SnapshotsTrue(w)
  }

  lemma EqualsEquivalence(a: CanonicalQuery, b: CanonicalQuery, c: CanonicalQuery)
    ensures CanonicalQueryEquals(a, a)
    ensures CanonicalQueryEquals(a, b) ==> CanonicalQueryEquals(b, a)
    ensures CanonicalQueryEquals(a, b) && CanonicalQueryEquals(b, c) ==> CanonicalQueryEquals(a, c)
  {
    CanonicalQueryEqualsIsMeaning(a, a);
    CanonicalQueryEqualsIsMeaning(a, b);
    CanonicalQueryEqualsIsMeaning(b, a);
    CanonicalQueryEqualsIsMeaning(b, c);
    CanonicalQueryEqualsIsMeaning(a, c);
  }

  /** `next` is `w` with monitor `m` changed to `after`, its cursor kept or deleted. */
  ghost predicate Edited(w: World, next: World, m: MonitorId, after: Monitor, kept: bool) {
    && m in w.db.monitors && next.db.monitors == w.db.monitors[m := after]
    && next.db.cursors == (if kept then w.db.cursors else w.db.cursors - {m})
    && next.db.revision == w.db.revision && next.runs == w.runs
    && next.sources == (if kept || m !in w.db.cursors then w.sources else w.sources - {m})
    && next.disturbed == (if kept || m !in w.db.cursors then w.disturbed else w.disturbed + JobsOf(w, m))
    && (kept ==> CanonicalQueryEquals(w.db.monitors[m].query, after.query))
  }

  const NO_MONITOR := Monitor("", CanonicalQuery("", None, None, None, None, None, None, [], []), Active, "", 0, [], false)

  /** A successful edit keeps the cursor only when the feed of the monitor stays the same. */
  lemma EditEffect(w: World, a: Action) returns (after: Monitor, kept: bool)
    requires a.EditMonitor?
    ensures Next(w, a) == w || Edited(w, Next(w, a), a.monitorId, after, kept)
  {
    hide CanonicalQueryEquals, PatchedMonitor, JobsOf, ValidTerms;
    var m := a.monitorId;
    var before := if m in w.db.monitors then w.db.monitors[m] else NO_MONITOR;
    var patched := PatchedMonitor(before, a.patch, a.rules);
    after := if patched.Ok? then patched.value else before;
    kept := !ShouldResetMonitorCursor(before, after);
  }

  lemma EqualsThrough(before: CanonicalQuery, after: CanonicalQuery)
    requires CanonicalQueryEquals(before, after)
    ensures forall q | CanonicalQueryEquals(q, before) :: CanonicalQueryEquals(q, after)
  {
    hide CanonicalQueryEquals;
    forall q | CanonicalQueryEquals(q, before) ensures CanonicalQueryEquals(q, after) {
      EqualsEquivalence(q, before, after);
    }
  }

  lemma EditedCursorsAgree(w: World, next: World, m: MonitorId, after: Monitor, kept: bool)
    requires CursorsAgree(w) && Edited(w, next, m, after, kept)
    ensures CursorsAgree(next)
  {
    hide CanonicalQueryEquals;
    if kept {
      EqualsThrough(w.db.monitors[m].query, after.query);
    }
  }

  lemma EditedSnapshotsTrue(w: World, next: World, m: MonitorId, after: Monitor, kept: bool)
    requires SnapshotsTrue(w) && Edited(w, next, m, after, kept)
    ensures SnapshotsTrue(next)
  {
    hide CanonicalQueryEquals;
    if kept {
      EqualsThrough(w.db.monitors[m].query, after.query);
    }
  }

  lemma EditKeepsInv(w: World, a: Action)
    requires Inv(w) && a.EditMonitor?
    ensures Inv(Next(w, a))
  {
    hide CanonicalQueryEquals, Next, CursorsAgree, SnapshotsTrue;
    var after, kept := EditEffect(w, a);
    if Next(w, a) != w {
      EditedCursorsAgree(w, Next(w, a), a.monitorId, after, kept);
      EditedSnapshotsTrue(w, Next(w, a), a.monitorId, after, kept);
    }
  }

  lemma BeginKeepsInv(w: World, a: Action)
    requires Inv(w) && (a.BeginRun? || a.BeginColdStart? || a.CreateMonitor?)
    ensures Inv(Next(w, a))
  {
    hide CanonicalQueryEquals;
    if a.BeginRun? && a.monitorId in w.db.monitors {
      var q := w.db.monitors[a.monitorId].query;
      EqualsEquivalence(q, q, q);
    }
  }

  lemma RunCommitEffect(db: Tables, input: RunCommit)
    requires !input.traversal.Failed?
    requires CommitRun(db, input).Ok?
    ensures var after := CommitRun(db, input).value;
      && CurrentRevision(db, input)
      && after.monitors == db.monitors
      && after.revision == db.revision + 1
      && after.cursors.Keys == db.cursors.Keys
      && after.cursors == db.cursors[input.monitorId := after.cursors[input.monitorId]]
      && after.cursors[input.monitorId].updatedAt == db.revision + 1
      && (db.cursors[input.monitorId].boundaryTime.Some? ==> after.cursors[input.monitorId].boundaryTime.Some?)
  {
  }

  lemma FinishRunKeepsInv(w: World, a: Action)
    requires Inv(w) && a.FinishRun?
    ensures Inv(Next(w, a))
  {
    hide CanonicalQueryEquals, CommitRun;
    var w' := Next(w, a);
    if w' != w {
      var s := w.runs[a.job];
      RunCommitEffect(w.db, RunInput(s, a));
      assert CurrentRevision(w.db, RunInput(s, a));
      assert a.job !in w.disturbed;
    }
  }

  lemma ColdCommitEffect(db: Tables, input: ColdStartCommit)
    requires CommitColdStart(db, input).Ok?
    ensures var after := CommitColdStart(db, input).value;
      && CurrentColdStartState(db, input)
      && after.monitors == db.monitors
      && after.revision == db.revision + 1
      && input.monitorId in after.cursors
      && after.cursors == db.cursors[input.monitorId := after.cursors[input.monitorId]]
      && after.cursors[input.monitorId].updatedAt == db.revision + 1
  {
  }

  lemma FinishColdStartKeepsInv(w: World, a: Action)
    requires Inv(w) && a.FinishColdStart?
    ensures Inv(Next(w, a))
  {
    hide CanonicalQueryEquals, CommitColdStart;
    var w' := Next(w, a);
    if w' != w {
      var s := w.coldStarts[a.job];
      ColdCommitEffect(w.db, ColdInput(s, a));
      assert !ShouldResetMonitorCursor(s.source, w.db.monitors[s.monitorId]);
    }
  }

  lemma StepKeepsInv(w: World, a: Action)
    requires Inv(w)
    ensures Inv(Next(w, a))
  {
    hide Inv;
    match a {
      case EditMonitor(_, _, _) => EditKeepsInv(w, a);
      case FinishRun(_, _, _, _, _) => FinishRunKeepsInv(w, a);
      case FinishColdStart(_, _, _, _) => FinishColdStartKeepsInv(w, a);
      case _ => BeginKeepsInv(w, a);
    }
  }

  /** In every reachable state every initialised cursor was computed for the monitor's current query. */
  lemma {:induction false} CursorAndSourceAgree(start: World, actions: seq<Action>)
    requires Initial(start)
    ensures Inv(Play(start, actions))
    ensures CursorsAgree(Play(start, actions))
  {
    if actions != [] {
      CursorAndSourceAgree(start, actions[..|actions| - 1]);
      StepKeepsInv(Play(start, actions[..|actions| - 1]), actions[|actions| - 1]);
    }
  }

  // ----- the monitor's URL

  /** The monitor's query is the one its URL parses to. */
  ghost predicate WatchesItsUrl(parse: string -> Option<CanonicalQuery>, monitor: Monitor) {
    parse(monitor.sourceUrl).Some? && CanonicalQueryEquals(parse(monitor.sourceUrl).value, monitor.query)
  }

  /** An edit that brings a query and no URL. */
  ghost predicate ReplacesQueryAlone(patch: ConfigPatch) {
    patch.query.Some? && patch.sourceUrl.None?
  }

  /**
   * An accepted edit leaves URL and query in agreement exactly when it is not one that replaces the query
   * alone by another: nothing compares such a query with the URL that stays.
   */
  lemma EditKeepsUrlExactly(db: Tables, m: MonitorId, patch: ConfigPatch, rules: UrlRules)
    requires UpdateMonitorConfig(db, m, patch, rules).Ok?
    requires m in db.monitors && WatchesItsUrl(rules.parse, db.monitors[m])
    ensures var after := UpdateMonitorConfig(db, m, patch, rules).value;
      m in after.monitors
      && (WatchesItsUrl(rules.parse, after.monitors[m]) <==>
            (ReplacesQueryAlone(patch) ==> CanonicalQueryEquals(db.monitors[m].query, patch.query.value)))
  {
    hide UpdateMonitorConfig, CanonicalQueryEquals;
    EditMeaning(db, m, patch, rules);
    var x := db.monitors[m];
    EqualsItself();
    if ReplacesQueryAlone(patch) {
      var parsed := rules.parse(x.sourceUrl).value;
      EqualsEquivalence(parsed, x.query, patch.query.value);
      EqualsEquivalence(x.query, parsed, patch.query.value);
      EqualsEquivalence(parsed, patch.query.value, x.query);
    }
  }

  /** A monitor whose URL gives `games`; an edit of the query alone makes it watch `flats` under the same URL. */
  lemma QueryAloneForExample(db: Tables, m: MonitorId)
    requires m in db.monitors
    ensures var games := NO_MONITOR.query.(host := "www.kufar.by", category := Some("games"));
      var flats := games.(category := Some("flats"));
      var rules := UrlRules(_ => true, _ => true, _ => Some(games), _ => true, _ => true);
      var start := db.(monitors := db.monitors[m := NO_MONITOR.(query := games)]);
      var r := UpdateMonitorConfig(start, m, ConfigPatch(None, None, Some(flats), None, None, None, None), rules);
      && WatchesItsUrl(rules.parse, start.monitors[m])
      && r.Ok? && m in r.value.monitors && !WatchesItsUrl(rules.parse, r.value.monitors[m])
  {
    var games := NO_MONITOR.query.(host := "www.kufar.by", category := Some("games"));
    var flats := games.(category := Some("flats"));
    var rules := UrlRules(_ => true, _ => true, _ => Some(games), _ => true, _ => true);
    var start := db.(monitors := db.monitors[m := NO_MONITOR.(query := games)]);
    var patch := ConfigPatch(None, None, Some(flats), None, None, None, None);
    EqualsItself();
    assert "games"[0] == 'g' && "flats"[0] == 'f';
    EditMeaning(start, m, patch, rules);
    EditKeepsUrlExactly(start, m, patch, rules);
  }

  /** New monitors get the query of their URL, edits parse alike and replace no query alone by another. */
  ghost predicate KeepsUrls(parse: string -> Option<CanonicalQuery>, w: World, a: Action) {
    match a
    case CreateMonitor(_, monitor) => WatchesItsUrl(parse, monitor)
    case EditMonitor(m, patch, rules) =>
      && rules.parse == parse
      && (m in w.db.monitors && ReplacesQueryAlone(patch) ==>
            CanonicalQueryEquals(w.db.monitors[m].query, patch.query.value))
    case _ => true
  }

  ghost predicate AllKeepUrls(parse: string -> Option<CanonicalQuery>, w: World, actions: seq<Action>) {
    forall k | 0 <= k < |actions| :: KeepsUrls(parse, Play(w, actions[..k]), actions[k])
  }

  ghost predicate AllWatchTheirUrls(parse: string -> Option<CanonicalQuery>, w: World) {
    forall m | m in w.db.monitors :: WatchesItsUrl(parse, w.db.monitors[m])
  }

  lemma StepKeepsUrls(parse: string -> Option<CanonicalQuery>, w: World, a: Action)
    requires AllWatchTheirUrls(parse, w) && KeepsUrls(parse, w, a)
    ensures AllWatchTheirUrls(parse, Next(w, a))
  {
    hide WatchesItsUrl, CanonicalQueryEquals, UpdateMonitorConfig, CommitRun, CommitColdStart;
    match a {
      case EditMonitor(m, patch, rules) =>
        EditMeaning(w.db, m, patch, rules);
        if UpdateMonitorConfig(w.db, m, patch, rules).Ok? {
          EditKeepsUrlExactly(w.db, m, patch, rules);
        }
      case FinishRun(job, _, _, _, traversal) =>
        if job in w.runs && !traversal.Failed? && CommitRun(w.db, RunInput(w.runs[job], a)).Ok? {
          RunCommitEffect(w.db, RunInput(w.runs[job], a));
        }
      case FinishColdStart(job, _, _, _) =>
        if job in w.coldStarts && CommitColdStart(w.db, ColdInput(w.coldStarts[job], a)).Ok? {
          ColdCommitEffect(w.db, ColdInput(w.coldStarts[job], a));
        }
      case _ =>
    }
  }

  lemma {:induction false} UrlsAreWatched(parse: string -> Option<CanonicalQuery>, start: World, actions: seq<Action>)
    requires AllWatchTheirUrls(parse, start) && AllKeepUrls(parse, start, actions)
    ensures AllWatchTheirUrls(parse, Play(start, actions))
  {
    hide Next, KeepsUrls;
    if actions != [] {
      var front := actions[..|actions| - 1];
      forall k | 0 <= k < |front| ensures KeepsUrls(parse, Play(start, front[..k]), front[k]) {
        assert front[..k] == actions[..k];
      }
      UrlsAreWatched(parse, start, front);
      StepKeepsUrls(parse, Play(start, front), actions[|actions| - 1]);
    }
  }

  /**
   * In every reachable state every feed that went into an initialised cursor is the feed of the URL the
   * monitor shows, as long as no edit replaced a query alone.
   */
  lemma CursorBelongsToUrl(parse: string -> Option<CanonicalQuery>, start: World, actions: seq<Action>)
    requires Initial(start) && AllWatchTheirUrls(parse, start) && AllKeepUrls(parse, start, actions)
    ensures var w := Play(start, actions);
      forall m | m in w.db.cursors && w.db.cursors[m].boundaryTime.Some? ::
        && m in w.db.monitors && m in w.sources && w.sources[m] != []
        && parse(w.db.monitors[m].sourceUrl).Some?
        && forall q | q in w.sources[m] :: CanonicalQueryEquals(q, parse(w.db.monitors[m].sourceUrl).value)
  {
    hide CanonicalQueryEquals, Next, AllKeepUrls;
    CursorAndSourceAgree(start, actions);
    UrlsAreWatched(parse, start, actions);
    var w := Play(start, actions);
    forall m, q | m in w.db.cursors && w.db.cursors[m].boundaryTime.Some? && q in w.sources[m]
      ensures CanonicalQueryEquals(q, parse(w.db.monitors[m].sourceUrl).value)
    {
      var parsed := parse(w.db.monitors[m].sourceUrl).value;
      EqualsEquivalence(parsed, w.db.monitors[m].query, q);
      EqualsEquivalence(q, w.db.monitors[m].query, parsed);
    }
  }

  /**
   * In every reachable state a run's commit is accepted exactly when nobody wrote or deleted its
   * monitor's cursor since its snapshot (and its journal row exists); otherwise it changes nothing.
   */
  lemma CommitIffUndisturbed(start: World, actions: seq<Action>, a: Action)
    requires Initial(start)
    requires a.FinishRun? && !a.traversal.Failed?
    requires a.job in Play(start, actions).runs
    ensures var w := Play(start, actions);
      var accepted := CommitRun(w.db, RunInput(w.runs[a.job], a)).Ok?;
      && (accepted <==> a.job !in w.disturbed && (a.runId.None? || a.runId.value in w.db.runs))
      && (!accepted ==> Next(w, a) == w)
  {
    hide CanonicalQueryEquals;
    CursorAndSourceAgree(start, actions);
  }

  /**
   * An accepted commit does what the whole run would have done in one step at the time of the commit,
   * given the same answers of the source: so what holds of runs done in one step holds of interleaved
   * ones. A refused commit does nothing.
   */
  lemma AcceptedRunIsAtomic(start: World, actions: seq<Action>, a: Action, first: Adapter, second: Adapter,
                            maxPages: int, select: Selector, previous: Watermark, checkpoint: Option<Checkpoint>)
    requires Initial(start)
    requires a.FinishRun? && !a.traversal.Failed?
    requires a.job in Play(start, actions).runs
    requires var row := Play(start, actions).runs[a.job].row;
      ParseWatermark(row) == Ok(previous) && ParseCatchupCheckpoint(row) == Ok(checkpoint)
    requires a.traversal == TraverseRecovering(first, second, previous, maxPages, checkpoint).outcome
    requires a.candidates == a.traversal.newListings && a.selected == Select(select, a.traversal.newListings)
    ensures var w := Play(start, actions);
      if CommitRun(w.db, RunInput(w.runs[a.job], a)).Ok?
      then Run(w.db, w.runs[a.job].monitorId, a.runId, first, second, maxPages, select)
           == RunResult(Ok(a.traversal), Next(w, a).db)
      else Next(w, a) == w
  {
    hide CommitRun, Play, TraverseRecovering, ParseWatermark, ParseCatchupCheckpoint, Select;
    CommitIffUndisturbed(start, actions, a);
    CursorAndSourceAgree(start, actions);
  }
}

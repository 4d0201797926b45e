/**
 * The code that holds leases: the executor of a scheduled run, the change of a monitor's state and
 * the recovery of interrupted runs, each undisturbed by other sessions, and each shown to be a path
 * of the steps of `RunOwnership`.
 */
module RunExecutor {
  import opened Basics
  import opened MonitorStore
  import opened RunOwnership

  // ----- failures

  datatype SourceCode = Network | Timeout | Http5xx | OtherCode(code: string)

  datatype RunFailure =
    | UrlBuild
    | DescriptionBudgetExceeded
    | SourceRequest(code: SourceCode)
    | ResilientSource(pauseRequired: bool)
    | WriteFailed
    | Unexpected

  datatype CycleKind = ColdStart | Incremental | SkippedOverlap | SkippedInactive | FailedNoRetry | PauseRequired

  /** How `runCycle` ends: with the outcome its transaction wrote, or by throwing. */
  datatype Cycle = Completed(kind: CycleKind, outcome: RunOutcome) | Thrown(failure: RunFailure)

  predicate IsRetryableSourceRequest(code: SourceCode) { code.Network? || code.Timeout? || code.Http5xx? }

  /** What the caller sees: a result that ends the job, or the error itself, after which the job is retried. */
  function AfterFailure(failure: RunFailure): Result<CycleKind, RunFailure> {
    if failure.UrlBuild? || failure.DescriptionBudgetExceeded? then Ok(FailedNoRetry)
    else if failure.ResilientSource? && failure.pauseRequired then Ok(PauseRequired)
    else if failure.SourceRequest? && !IsRetryableSourceRequest(failure.code) then Ok(FailedNoRetry)
    else Err(failure)
  }

  datatype Executed = Executed(journal: Journal, result: Result<CycleKind, RunFailure>)

  /** Which writes of the executor itself succeed: the skip row, the running row, the error row. */
  datatype Writes = Writes(skip: bool, start: bool, failure: bool)

  /**
   * A run that nothing interrupts; `held` says whether another session holds the lease. When the error
   * row cannot be written the run stays open, for recovery to find, and the caller sees that error.
   */
  function Execute(j: Journal, held: bool, m: MonitorId, cycle: Cycle, writes: Writes): Executed {
    if held then
      if writes.skip then Executed(AddRun(j, Run(m, Skipped, true)), Ok(SkippedOverlap)) else Executed(j, Err(WriteFailed))
    else if m !in j.states then Executed(j, Err(Unexpected))
    else if !j.states[m].Active? then Executed(j, Ok(SkippedInactive))
    else if !writes.start then Executed(j, Err(WriteFailed))
    else match cycle
      case Completed(kind, outcome) => Executed(AddRun(j, Run(m, outcome, true)), Ok(kind))
      case Thrown(failure) =>
        if writes.failure then Executed(AddRun(j, Run(m, Errored, true)), AfterFailure(failure))
        else Executed(AddRun(j, Run(m, Running, false)), Err(WriteFailed))
  }

  // ----- leases

  class LeaseAcquirer {
    var activeMonitorIds: set<MonitorId>

    constructor ()
      ensures activeMonitorIds == {}
    {
      activeMonitorIds := {};
    }

    method Acquire(monitorId: MonitorId) returns (lease: Lease?)
      modifies this
      ensures lease == null <==> monitorId in old(activeMonitorIds)
      ensures lease == null ==> activeMonitorIds == old(activeMonitorIds)
      ensures lease != null ==> fresh(lease) && lease.owner == this && lease.monitorId == monitorId && !lease.released
      ensures lease != null ==> activeMonitorIds == old(activeMonitorIds) + {monitorId}
    {
      if monitorId in activeMonitorIds {
        return null;
      }
      activeMonitorIds := activeMonitorIds + {monitorId};
      lease := new Lease(this, monitorId);
    }
  }

  class Lease {
    const owner: LeaseAcquirer
    const monitorId: MonitorId
    var released: bool

    constructor (owner: LeaseAcquirer, monitorId: MonitorId)
      ensures this.owner == owner && this.monitorId == monitorId && !released
    {
      this.owner := owner;
      this.monitorId := monitorId;
      released := false;
    }

    /** Only the first release frees the monitor; a later one cannot take a lease acquired since. */
    method Release()
      modifies this, owner
      ensures released
      ensures owner.activeMonitorIds == if old(released) then old(owner.activeMonitorIds)
                                        else old(owner.activeMonitorIds) - {monitorId}
    {
      if released {
        return;
      }
      released := true;
      owner.activeMonitorIds := owner.activeMonitorIds - {monitorId};
    }
  }

  // ----- the tables

  class Tables {
    var states: map<MonitorId, MonitorState>
    var runs: map<RunId, Run>
    var nextRunId: RunId

    function View(): Journal reads this { Journal(states, runs, nextRunId) }

    method CreateRun(run: Run) returns (id: RunId)
      modifies this`runs, this`nextRunId
      ensures id == old(nextRunId) && View() == AddRun(old(View()), run)
    {
      id := nextRunId;
      runs := runs[id := run];
      nextRunId := nextRunId + 1;
    }

    method UpdateOutcome(id: RunId, outcome: RunOutcome)
      requires id in runs
      modifies this`runs
      ensures View() == FinishRun(old(View()), id, outcome)
    {
      runs := runs[id := runs[id].(outcome := outcome, finished := true)];
    }
  }

  // ----- the executor

  method ExecuteScheduledRun(tables: Tables, leases: LeaseAcquirer, monitorId: MonitorId, cycle: Cycle, writes: Writes)
    returns (r: Result<CycleKind, RunFailure>)
    modifies tables, leases
    ensures leases.activeMonitorIds == old(leases.activeMonitorIds)
    ensures Executed(tables.View(), r)
         == Execute(old(tables.View()), monitorId in old(leases.activeMonitorIds), monitorId, cycle, writes)
  {
    var lease := leases.Acquire(monitorId);
    if lease == null {
      if !writes.skip {
        return Err(WriteFailed);
      }
      var _ := tables.CreateRun(Run(monitorId, Skipped, true));
      return Ok(SkippedOverlap);
    }
    r := RunUnderLease(tables, monitorId, cycle, writes);
    lease.Release();
  }

  method RunUnderLease(tables: Tables, monitorId: MonitorId, cycle: Cycle, writes: Writes)
    returns (r: Result<CycleKind, RunFailure>)
    modifies tables
    ensures Executed(tables.View(), r) == Execute(old(tables.View()), false, monitorId, cycle, writes)
  {
    if monitorId !in tables.states {
      return Err(Unexpected);
    }
    if tables.states[monitorId].Paused? || tables.states[monitorId].Archived? {
      return Ok(SkippedInactive);
    }
    if !writes.start {
      return Err(WriteFailed);
    }
    var journalRun := tables.CreateRun(Run(monitorId, Running, false));
    match cycle
    case Completed(kind, outcome) =>
      tables.UpdateOutcome(journalRun, outcome);
      r := Ok(kind);
    case Thrown(failure) =>
      if !writes.failure {
        return Err(WriteFailed);
      }
      tables.UpdateOutcome(journalRun, Errored);
      if failure.UrlBuild? || failure.DescriptionBudgetExceeded? {
        return Ok(FailedNoRetry);
      }
      if failure.ResilientSource? && failure.pauseRequired {
        return Ok(PauseRequired);
      }
      if failure.SourceRequest? && !IsRetryableSourceRequest(failure.code) {
        return Ok(FailedNoRetry);
      }
      r := Err(failure);
  }

  // ----- changing the state

  datatype StateError = StateBusy | MonitorMissing | ForbiddenTransition | UnsupportedMapping | StateNotWritten | NotSynchronised

  datatype Changed = Changed(journal: Journal, error: Option<StateError>)

  /**
   * `supported`: the persisted query still has an API mapping; `written` and `synchronised`: the
   * transaction and the update of the schedule succeed. A schedule that fails leaves the new state.
   */
  function ChangeState(j: Journal, held: bool, m: MonitorId, target: MonitorState, supported: bool,
                       written: bool, synchronised: bool): Changed
  {
    if held then Changed(j, Some(StateBusy))
    else if m !in j.states then Changed(j, Some(MonitorMissing))
    else if j.states[m].Archived? && !target.Archived? && !target.Active? then Changed(j, Some(ForbiddenTransition))
    else if j.states[m].Archived? && target.Active? && !supported then Changed(j, Some(UnsupportedMapping))
    else if !written then Changed(j, Some(StateNotWritten))
    else Changed(j.(states := j.states[m := target]), if synchronised then None else Some(NotSynchronised))
  }

  method SetMonitorState(tables: Tables, leases: LeaseAcquirer, monitorId: MonitorId, target: MonitorState,
                         supported: bool, written: bool, synchronised: bool) returns (error: Option<StateError>)
    modifies tables`states, leases
    ensures leases.activeMonitorIds == old(leases.activeMonitorIds)
    ensures Changed(tables.View(), error)
         == ChangeState(old(tables.View()), monitorId in old(leases.activeMonitorIds), monitorId, target, supported,
                        written, synchronised)
  {
    var lease := leases.Acquire(monitorId);
    if lease == null {
      return Some(StateBusy);
    }
    error := None;
    if monitorId !in tables.states {
      error := Some(MonitorMissing);
    } else if tables.states[monitorId].Archived? && !target.Archived? {
      if !target.Active? {
        error := Some(ForbiddenTransition);
      } else if !supported {
        error := Some(UnsupportedMapping);
      }
    }
    if error.None? {
      if !written {
        error := Some(StateNotWritten);
      } else {
        tables.states := tables.states[monitorId := target];
        if !synchronised {
          error := Some(NotSynchronised);
        }
      }
    }
    lease.Release();
  }

  // ----- recovery

  datatype RecoveryFailure = RowsNotWritten(monitorId: MonitorId) | LeaseNotReleased(monitorId: MonitorId)

  /** Which monitors' row updates and lease releases fail; a failed release gives the lease up all the same. */
  datatype Faults = Faults(rows: MonitorId -> bool, release: MonitorId -> bool)

  predicate Fails(faults: Faults, m: MonitorId) { faults.rows(m) || faults.release(m) }

  /** The rows after the monitors of `order` were visited, and what stopped the visit, if anything. */
  function RecoverInOrder(runs: map<RunId, Run>, held: set<MonitorId>, faults: Faults, order: seq<MonitorId>)
    : (map<RunId, Run>, Option<RecoveryFailure>)
    decreases |order|
  {
    if order == [] then (runs, None)
    else
      var m := order[0];
      if m in held then RecoverInOrder(runs, held, faults, order[1..])
      else if faults.rows(m) then (runs, Some(RowsNotWritten(m)))
      else if faults.release(m) then (RecoverMonitorRows(runs, m), Some(LeaseNotReleased(m)))
      else RecoverInOrder(RecoverMonitorRows(runs, m), held, faults, order[1..])
  }

  /** `order`: the candidates, as the query lists them. A failed update outranks a failed release. */
  method RecoverInterruptedMonitorRuns(tables: Tables, leases: LeaseAcquirer, order: seq<MonitorId>, faults: Faults)
    returns (failure: Option<RecoveryFailure>)
    requires Elements(order) == Candidates(tables.runs)
    modifies tables`runs, leases
    ensures leases.activeMonitorIds == old(leases.activeMonitorIds)
    ensures (tables.runs, failure) == RecoverInOrder(old(tables.runs), old(leases.activeMonitorIds), faults, order)
  {
    var i := 0;
    assert order[0..] == order;
    while i < |order|
      invariant i <= |order|
      invariant leases.activeMonitorIds == old(leases.activeMonitorIds)
      invariant RecoverInOrder(old(tables.runs), old(leases.activeMonitorIds), faults, order)
             == RecoverInOrder(tables.runs, old(leases.activeMonitorIds), faults, order[i..])
    {
      var monitorId := order[i];
      i := i + 1;
      var lease := leases.Acquire(monitorId);
      if lease == null {
        continue;
      }
      var failed := faults.rows(monitorId);
      if !failed {
        tables.runs := RecoverMonitorRows(tables.runs, monitorId);
      }
      lease.Release();
      if faults.release(monitorId) && !failed {
        return Some(LeaseNotReleased(monitorId));
      }
      if failed {
        return Some(RowsNotWritten(monitorId));
      }
    }
    failure := None;
  }

  /** What a complete recovery leaves: every open row is interrupted, except under a held lease. */
  function Recovered(runs: map<RunId, Run>, held: set<MonitorId>): map<RunId, Run> {
    map id | id in runs ::
      if IsOpen(runs[id]) && runs[id].monitorId !in held then runs[id].(outcome := Interrupted, finished := true)
      else runs[id]
  }

  function RecoveredOnly(runs: map<RunId, Run>, held: set<MonitorId>, visited: set<MonitorId>): map<RunId, Run> {
    map id | id in runs ::
      if IsOpen(runs[id]) && runs[id].monitorId in visited && runs[id].monitorId !in held
      then runs[id].(outcome := Interrupted, finished := true) else runs[id]
  }

  lemma {:induction false} OrderDoesNotMatter(runs: map<RunId, Run>, held: set<MonitorId>, faults: Faults, order: seq<MonitorId>)
    requires RecoverInOrder(runs, held, faults, order).1.None?
    ensures RecoverInOrder(runs, held, faults, order).0 == RecoveredOnly(runs, held, Elements(order))
    decreases |order|
  {
    if order == [] {
      assert RecoveredOnly(runs, held, {}) == runs;
    } else {
      assert order == [order[0]] + order[1..];
      assert Elements(order) == {order[0]} + Elements(order[1..]);
      if order[0] in held {
        OrderDoesNotMatter(runs, held, faults, order[1..]);
      } else {
        OrderDoesNotMatter(RecoverMonitorRows(runs, order[0]), held, faults, order[1..]);
      }
    }
  }

  /** A recovery without failures interrupts every open row whose lease is free and changes no other row. */
  lemma RecoveryIsComplete(runs: map<RunId, Run>, held: set<MonitorId>, faults: Faults, order: seq<MonitorId>)
    requires Elements(order) == Candidates(runs)
    ensures RecoverInOrder(runs, held, faults, order).1.None? <==>
              forall m | m in Candidates(runs) && m !in held :: !Fails(faults, m)
    ensures RecoverInOrder(runs, held, faults, order).1.None? ==>
              RecoverInOrder(runs, held, faults, order).0 == Recovered(runs, held)
  {
    FailsExactly(runs, held, faults, order);
    if RecoverInOrder(runs, held, faults, order).1.None? {
      OrderDoesNotMatter(runs, held, faults, order);
      assert forall id | id in runs && IsOpen(runs[id]) :: runs[id].monitorId in Candidates(runs);
    }
  }

  lemma {:induction false} FailsExactly(runs: map<RunId, Run>, held: set<MonitorId>, faults: Faults, order: seq<MonitorId>)
    ensures RecoverInOrder(runs, held, faults, order).1.None? <==> forall m | m in Elements(order) && m !in held :: !Fails(faults, m)
    decreases |order|
  {
    if order != [] {
      assert order == [order[0]] + order[1..];
      assert Elements(order) == {order[0]} + Elements(order[1..]);
      if order[0] in held {
        FailsExactly(runs, held, faults, order[1..]);
      } else {
        FailsExactly(RecoverMonitorRows(runs, order[0]), held, faults, order[1..]);
      }
    }
  }

  // ----- what the caller sees

  /** The failures the caller gets to see, so that the job is tried again. */
  ghost predicate IsRetried(failure: RunFailure) {
    || failure in {SourceRequest(Network), SourceRequest(Timeout), SourceRequest(Http5xx)}
    || failure in {ResilientSource(false), WriteFailed, Unexpected}
  }

  /** Why an execution throws. */
  ghost predicate Throws(j: Journal, held: bool, m: MonitorId, cycle: Cycle, writes: Writes) {
    || (held && !writes.skip)
    || (!held && m !in j.states)
    || (!held && IsActive(j, m) && !writes.start)
    || (!held && IsActive(j, m) && cycle.Thrown? && (IsRetried(cycle.failure) || !writes.failure))
  }

  /** The kind of result says how it came about. */
  ghost predicate KindFits(j: Journal, held: bool, m: MonitorId, cycle: Cycle, kind: CycleKind) {
    if held then kind == SkippedOverlap
    else if !IsActive(j, m) then kind == SkippedInactive
    else if cycle.Completed? then kind == cycle.kind
    else
      && (kind == PauseRequired <==> cycle.failure == ResilientSource(true))
      && (kind == FailedNoRetry <==>
            cycle.failure == UrlBuild || cycle.failure == DescriptionBudgetExceeded
            || (cycle.failure.SourceRequest? && cycle.failure.code.OtherCode?))
  }

  /**
   * The caller sees an error exactly when a write of the executor fails, the monitor is gone, or the run
   * failed in a way that may pass; every other end is a result, which says how it came about.
   */
  lemma ErrorsAreRetried(j: Journal, held: bool, m: MonitorId, cycle: Cycle, writes: Writes)
    ensures var result := Execute(j, held, m, cycle, writes).result;
      && (result.Err? <==> Throws(j, held, m, cycle, writes))
      && (result.Err? && !held && IsActive(j, m) && writes.start && writes.failure ==>
            cycle.Thrown? && result.error == cycle.failure)
      && (result.Ok? ==> KindFits(j, held, m, cycle, result.value))
  {
  }

  /**
   * An execution adds at most one row and changes no other: a skipped one under a held lease, else that of
   * the run, which stays open only when its error could not be written.
   */
  lemma ExecutionAddsOneRow(j: Journal, held: bool, m: MonitorId, cycle: Cycle, writes: Writes)
    requires j.nextRunId !in j.runs
    ensures var after := Execute(j, held, m, cycle, writes).journal;
      var added := if held then writes.skip else IsActive(j, m) && writes.start;
      && after.states == j.states
      && after.runs.Keys == j.runs.Keys + (if added then {j.nextRunId} else {})
      && (forall id | id in j.runs :: after.runs[id] == j.runs[id])
      && after.nextRunId == (if added then j.nextRunId + 1 else j.nextRunId)
      && (added ==>
            var row := after.runs[j.nextRunId];
            && row.monitorId == m
            && (row.finished <==> held || cycle.Completed? || writes.failure)
            && row.outcome == (if held then Skipped
                               else if cycle.Completed? then cycle.outcome
                               else if writes.failure then Errored else Running))
  {
  }

  // ----- what a change of state changes

  /** An archived monitor only becomes active again, and only while its query is supported. */
  ghost predicate Allowed(before: MonitorState, target: MonitorState, supported: bool) {
    before == Archived ==> target == Archived || (target == Active && supported)
  }

  /**
   * The state changes exactly when the lease is free, the transition is allowed and the write succeeds; no
   * error means that the schedule has followed as well. Nothing else changes.
   */
  lemma StateChangeMeaning(j: Journal, held: bool, m: MonitorId, target: MonitorState, supported: bool,
                           written: bool, synchronised: bool)
    ensures var r := ChangeState(j, held, m, target, supported, written, synchronised);
      var changes := !held && m in j.states && Allowed(j.states[m], target, supported) && written;
      && (r.error.None? <==> changes && synchronised)
      && (r.error == Some(NotSynchronised) <==> changes && !synchronised)
      && (r.error == Some(StateBusy) <==> held)
      && (r.error == Some(MonitorMissing) <==> !held && m !in j.states)
      && (r.error == Some(ForbiddenTransition) <==> !held && m in j.states && j.states[m] == Archived && target == Paused)
      && (r.error == Some(UnsupportedMapping) <==>
            !held && m in j.states && j.states[m] == Archived && target == Active && !supported)
      && r.journal.runs == j.runs && r.journal.nextRunId == j.nextRunId
      && r.journal.states.Keys == j.states.Keys
      && (forall other | other in j.states ::
            r.journal.states[other] == if changes && other == m then target else j.states[other])
  {
  }

  // ----- the code is a path of steps

  function Steps(w: World, actions: seq<Action>): World
    decreases |actions|
  {
    if actions == [] then w else Steps(Next(w, actions[0]), actions[1..])
  }

  lemma StepsCons(w: World, action: Action, rest: seq<Action>)
    ensures Steps(w, [action] + rest) == Steps(Next(w, action), rest)
  {
    assert ([action] + rest)[1..] == rest;
  }

  /** The actions of an undisturbed run, behind its trigger. */
  function CycleAction(id: SessionId, cycle: Cycle, writes: Writes): Action {
    if cycle.Completed? then CommitCycle(id, cycle.outcome) else FailCycle(id, writes.failure)
  }

  /** A session whose write fails ends there, its lease released: like a crash at that point. */
  function SkipAction(id: SessionId, held: bool, writes: Writes): Action {
    if held && !writes.skip then Crash(id) else RecordSkip(id)
  }

  function StartAction(id: SessionId, active: bool, writes: Writes): Action {
    if active && !writes.start then Crash(id) else StartJournal(id)
  }

  function RunActions(w: World, id: SessionId, m: MonitorId, cycle: Cycle, writes: Writes): seq<Action> {
    [Trigger(id, m)] + ([SkipAction(id, m in w.locks, writes)] + ([ReadState(id)]
      + ([StartAction(id, IsActive(w.journal, m), writes)]
      + ([CycleAction(id, cycle, writes)] + ([Action.Release(id)] + [])))))
  }

  /** The executor undisturbed is one schedule of the protocol, and leaves locks and sessions as it found them. */
  lemma ExecutorFollowsProtocol(w: World, id: SessionId, m: MonitorId, cycle: Cycle, writes: Writes)
    requires Inv(w) && id !in w.sessions
    requires cycle.Completed? ==> cycle.outcome.Success? || cycle.outcome.Catchup?
    ensures Steps(w, RunActions(w, id, m, cycle, writes))
         == w.(journal := Execute(w.journal, m in w.locks, m, cycle, writes).journal)
  {
    hide LocksAreHeld, RunsAreOwned, RowsAreSound;
    ChainSix(w, RunActions(w, id, m, cycle, writes), Trigger(id, m), SkipAction(id, m in w.locks, writes), ReadState(id),
             StartAction(id, IsActive(w.journal, m), writes), CycleAction(id, cycle, writes), Action.Release(id));
    RunPath(w, id, m, cycle, writes);
  }

  lemma ChainSix(w: World, actions: seq<Action>, a1: Action, a2: Action, a3: Action, a4: Action, a5: Action, a6: Action)
    requires actions == [a1] + ([a2] + ([a3] + ([a4] + ([a5] + ([a6] + [])))))
    ensures Steps(w, actions) == Next(Next(Next(Next(Next(Next(w, a1), a2), a3), a4), a5), a6)
  {
    hide Next;
    var w1 := Next(w, a1);
    var w2 := Next(w1, a2);
    var w3 := Next(w2, a3);
    var w4 := Next(w3, a4);
    var w5 := Next(w4, a5);
    StepsCons(w, a1, [a2] + ([a3] + ([a4] + ([a5] + ([a6] + [])))));
    StepsCons(w1, a2, [a3] + ([a4] + ([a5] + ([a6] + []))));
    StepsCons(w2, a3, [a4] + ([a5] + ([a6] + [])));
    StepsCons(w3, a4, [a5] + ([a6] + []));
    StepsCons(w4, a5, [a6] + []);
    StepsCons(w5, a6, []);
  }

  lemma RunPath(w: World, id: SessionId, m: MonitorId, cycle: Cycle, writes: Writes)
    requires id !in w.sessions
    requires cycle.Completed? ==> cycle.outcome.Success? || cycle.outcome.Catchup?
    ensures Next(Next(Next(Next(Next(Next(w, Trigger(id, m)), SkipAction(id, m in w.locks, writes)), ReadState(id)),
                           StartAction(id, IsActive(w.journal, m), writes)),
                      CycleAction(id, cycle, writes)), Action.Release(id))
         == w.(journal := Execute(w.journal, m in w.locks, m, cycle, writes).journal)
  {
    if m in w.locks {
      RefusedPath(w, id, m, cycle, writes);
    } else {
      var w2 := Next(Next(w, Trigger(id, m)), SkipAction(id, false, writes));
      assert w2 == Holding(w, w.journal, id, RunHolding(m));
      hide Next;
      if IsActive(w.journal, m) && !writes.start {
        UnstartedPath(w, id, m, cycle, writes);
      } else {
        CyclePath(w, id, m, cycle, writes);
        ReleasePath(w, Execute(w.journal, false, m, cycle, writes).journal, id, m);
      }
    }
  }

  /** The world with one more session that holds the lease of its monitor. */
  function Holding(w: World, j: Journal, id: SessionId, session: Session): World
    requires Held(session).Some?
  {
    World(j, w.locks[Held(session).value := id], w.sessions[id := session])
  }

  lemma RefusedPath(w: World, id: SessionId, m: MonitorId, cycle: Cycle, writes: Writes)
    requires id !in w.sessions && m in w.locks
    ensures Next(Next(Next(Next(Next(Next(w, Trigger(id, m)), SkipAction(id, true, writes)), ReadState(id)),
                           StartAction(id, IsActive(w.journal, m), writes)),
                      CycleAction(id, cycle, writes)), Action.Release(id))
         == w.(journal := if writes.skip then AddRun(w.journal, Run(m, Skipped, true)) else w.journal)
  {
    hide AddRun;
    var w2 := Next(Next(w, Trigger(id, m)), SkipAction(id, true, writes));
    assert w2.sessions == w.sessions;
  }

  lemma UnstartedPath(w: World, id: SessionId, m: MonitorId, cycle: Cycle, writes: Writes)
    requires id !in w.sessions && m !in w.locks && IsActive(w.journal, m)
    ensures Next(Next(Next(Next(Holding(w, w.journal, id, RunHolding(m)), ReadState(id)), Crash(id)),
                      CycleAction(id, cycle, writes)), Action.Release(id)) == w
  {
    ReadPath(w, id, m);
    var w4 := Next(Holding(w, w.journal, id, RunCleared(m)), Crash(id));
    assert w4.sessions == w.sessions && w4.locks == w.locks;
  }

  lemma CyclePath(w: World, id: SessionId, m: MonitorId, cycle: Cycle, writes: Writes)
    requires id !in w.sessions && m !in w.locks && (IsActive(w.journal, m) ==> writes.start)
    requires cycle.Completed? ==> cycle.outcome.Success? || cycle.outcome.Catchup?
    ensures Next(Next(Next(Holding(w, w.journal, id, RunHolding(m)), ReadState(id)), StartJournal(id)),
                 CycleAction(id, cycle, writes))
         == Holding(w, Execute(w.journal, false, m, cycle, writes).journal, id, RunReleasing(m))
  {
    ReadPath(w, id, m);
    if IsActive(w.journal, m) {
      StartPath(w, id, m);
      FinishPath(w, id, m, cycle, writes);
    } else {
      IdlePath(w, id, m, cycle, writes);
    }
  }

  lemma ReadPath(w: World, id: SessionId, m: MonitorId)
    ensures Next(Holding(w, w.journal, id, RunHolding(m)), ReadState(id))
         == Holding(w, w.journal, id, if m in w.journal.states && w.journal.states[m].Active? then RunCleared(m) else RunReleasing(m))
  {
    assert w.sessions[id := RunHolding(m)][id := RunCleared(m)] == w.sessions[id := RunCleared(m)];
    assert w.sessions[id := RunHolding(m)][id := RunReleasing(m)] == w.sessions[id := RunReleasing(m)];
  }

  lemma StartPath(w: World, id: SessionId, m: MonitorId)
    ensures Next(Holding(w, w.journal, id, RunCleared(m)), StartJournal(id))
         == Holding(w, AddRun(w.journal, Run(m, Running, false)), id, Traversing(m, w.journal.nextRunId))
  {
    hide AddRun;
    var next := Traversing(m, w.journal.nextRunId);
    assert w.sessions[id := RunCleared(m)][id := next] == w.sessions[id := next];
  }

  lemma FinishPath(w: World, id: SessionId, m: MonitorId, cycle: Cycle, writes: Writes)
    requires IsActive(w.journal, m) && writes.start
    requires cycle.Completed? ==> cycle.outcome.Success? || cycle.outcome.Catchup?
    ensures Next(Holding(w, AddRun(w.journal, Run(m, Running, false)), id, Traversing(m, w.journal.nextRunId)),
                 CycleAction(id, cycle, writes))
         == Holding(w, Execute(w.journal, false, m, cycle, writes).journal, id, RunReleasing(m))
  {
    var current := Traversing(m, w.journal.nextRunId);
    assert w.sessions[id := current][id := RunReleasing(m)] == w.sessions[id := RunReleasing(m)];
    FinishStarted(w.journal, m, if cycle.Completed? then cycle.outcome else Errored);
    hide FinishRun, AddRun;
  }

  lemma FinishStarted(j: Journal, m: MonitorId, outcome: RunOutcome)
    ensures FinishRun(AddRun(j, Run(m, Running, false)), j.nextRunId, outcome) == AddRun(j, Run(m, outcome, true))
  {
    var r := j.nextRunId;
    assert j.runs[r := Run(m, Running, false)][r := Run(m, outcome, true)] == j.runs[r := Run(m, outcome, true)];
  }

  lemma IdlePath(w: World, id: SessionId, m: MonitorId, cycle: Cycle, writes: Writes)
    ensures var idle := Holding(w, w.journal, id, RunReleasing(m));
            Next(Next(idle, StartJournal(id)), CycleAction(id, cycle, writes)) == idle
  {
  }

  lemma ReleasePath(w: World, j: Journal, id: SessionId, m: MonitorId)
    requires id !in w.sessions && m !in w.locks
    ensures Next(Holding(w, j, id, RunReleasing(m)), Action.Release(id)) == w.(journal := j)
  {
    var after := Next(Holding(w, j, id, RunReleasing(m)), Action.Release(id));
    assert after.sessions == w.sessions && after.locks == w.locks;
  }

  /** A change of state undisturbed is one schedule of the protocol. */
  lemma StateChangeFollowsProtocol(w: World, id: SessionId, m: MonitorId, target: MonitorState, supported: bool,
                                   written: bool, synchronised: bool)
    requires Inv(w) && id !in w.sessions
    ensures Next(Next(Next(Next(w, RequestState(id, m, target)), CheckTransition(id, supported)), ApplyState(id, written)),
                 Action.Release(id))
         == w.(journal := ChangeState(w.journal, m in w.locks, m, target, supported, written, synchronised).journal)
  {
    hide LocksAreHeld, RunsAreOwned, RowsAreSound;
    var w1 := Next(w, RequestState(id, m, target));
    var after := ChangeState(w.journal, m in w.locks, m, target, supported, written, synchronised).journal;
    if m in w.locks {
      assert w1 == w;
    } else {
      assert w1 == Holding(w, w.journal, id, StateHolding(m, target));
      hide Acquire;
      ApplyPath(w, id, m, target, supported, written, synchronised);
      StateReleasePath(w, after, id, m);
      hide Next;
    }
  }

  lemma ApplyPath(w: World, id: SessionId, m: MonitorId, target: MonitorState, supported: bool, written: bool, synchronised: bool)
    requires id !in w.sessions && m !in w.locks
    ensures Next(Next(Holding(w, w.journal, id, StateHolding(m, target)), CheckTransition(id, supported)), ApplyState(id, written))
         == Holding(w, ChangeState(w.journal, false, m, target, supported, written, synchronised).journal, id, StateReleasing(m))
  {
    hide Acquire, Unlock, RecoverMonitorRows, FinishRun, AddRun;
    var w2 := Next(Holding(w, w.journal, id, StateHolding(m, target)), CheckTransition(id, supported));
    assert w.sessions[id := StateHolding(m, target)][id := StateReleasing(m)] == w.sessions[id := StateReleasing(m)];
    assert w.sessions[id := StateHolding(m, target)][id := StateCleared(m, target)] == w.sessions[id := StateCleared(m, target)];
    assert w.sessions[id := StateCleared(m, target)][id := StateReleasing(m)] == w.sessions[id := StateReleasing(m)];
  }

  lemma StateReleasePath(w: World, j: Journal, id: SessionId, m: MonitorId)
    requires id !in w.sessions && m !in w.locks
    ensures Next(Holding(w, j, id, StateReleasing(m)), Action.Release(id)) == w.(journal := j)
  {
    var after := Next(Holding(w, j, id, StateReleasing(m)), Action.Release(id));
    assert after.sessions == w.sessions && after.locks == w.locks;
  }

  function RecoveryActions(id: SessionId, held: set<MonitorId>, faults: Faults, order: seq<MonitorId>): seq<Action> {
    if order == [] then [RecoverNext(id)] + []
    else if order[0] !in held && faults.rows(order[0]) then [RecoverNext(id)] + ([Crash(id)] + [])
    else if order[0] !in held && faults.release(order[0]) then [RecoverNext(id)] + ([RecoverRows(id)] + ([Crash(id)] + []))
    else [RecoverNext(id)] + ([RecoverRows(id)] + ([Action.Release(id)] + RecoveryActions(id, held, faults, order[1..])))
  }

  lemma VisitPath(w: World, id: SessionId, m: MonitorId, todo: seq<MonitorId>)
    requires id !in w.sessions
    ensures var w1 := Next(Move(w, id, Recovering([m] + todo)), RecoverNext(id));
            var after := if m in w.locks then w else w.(journal := w.journal.(runs := RecoverMonitorRows(w.journal.runs, m)));
            && Next(Next(w1, RecoverRows(id)), Action.Release(id)) == Move(after, id, Recovering(todo))
            && (m !in w.locks ==> Next(w1, Crash(id)) == w && Next(Next(w1, RecoverRows(id)), Crash(id)) == after)
  {
    hide RecoverMonitorRows;
    var w1 := Next(Move(w, id, Recovering([m] + todo)), RecoverNext(id));
    assert ([m] + todo)[1..] == todo && ([m] + todo)[0] == m;
    if m !in w.locks {
      assert w1 == Holding(w, w.journal, id, RecoverHolding(m, todo));
      hide Next;
      RowsPath(w, id, m, todo);
      DonePath(w, w.journal.(runs := RecoverMonitorRows(w.journal.runs, m)), id, m, todo);
    } else {
      assert w1 == Move(w, id, Recovering(todo));
    }
  }

  lemma RowsPath(w: World, id: SessionId, m: MonitorId, todo: seq<MonitorId>)
    requires id !in w.sessions && m !in w.locks
    ensures var holding := Holding(w, w.journal, id, RecoverHolding(m, todo));
            && Next(holding, Crash(id)) == w
            && Next(holding, RecoverRows(id))
               == Holding(w, w.journal.(runs := RecoverMonitorRows(w.journal.runs, m)), id, RecoverReleasing(m, todo))
  {
    hide RecoverMonitorRows;
    var crashed := Next(Holding(w, w.journal, id, RecoverHolding(m, todo)), Crash(id));
    assert crashed.locks == w.locks && crashed.sessions == w.sessions;
    assert w.sessions[id := RecoverHolding(m, todo)][id := RecoverReleasing(m, todo)] == w.sessions[id := RecoverReleasing(m, todo)];
  }

  lemma DonePath(w: World, j: Journal, id: SessionId, m: MonitorId, todo: seq<MonitorId>)
    requires id !in w.sessions && m !in w.locks
    ensures var releasing := Holding(w, j, id, RecoverReleasing(m, todo));
            && Next(releasing, Crash(id)) == w.(journal := j)
            && Next(releasing, Action.Release(id)) == Move(w.(journal := j), id, Recovering(todo))
  {
    var releasing := Holding(w, j, id, RecoverReleasing(m, todo));
    var crashed := Next(releasing, Crash(id));
    assert crashed.locks == w.locks && crashed.sessions == w.sessions;
    var released := Next(releasing, Action.Release(id));
    assert released.locks == w.locks;
    assert released.sessions == w.sessions[id := Recovering(todo)];
  }

  /** Recovery undisturbed is one schedule of the protocol; a failure ends it like a crash, its lease free. */
  lemma {:induction false} RecoveryFollowsProtocol(w: World, id: SessionId, faults: Faults, order: seq<MonitorId>)
    requires id !in w.sessions
    ensures Steps(Move(w, id, Recovering(order)), RecoveryActions(id, w.locks.Keys, faults, order))
         == w.(journal := w.journal.(runs := RecoverInOrder(w.journal.runs, w.locks.Keys, faults, order).0))
    decreases |order|
  {
    var start := Move(w, id, Recovering(order));
    var w1 := Next(start, RecoverNext(id));
    var held := w.locks.Keys;
    if order == [] {
      StepsCons(start, RecoverNext(id), []);
      assert w1.sessions == w.sessions;
    } else {
      hide Next;
      var (m, todo) := (order[0], order[1..]);
      assert order == [m] + todo;
      VisitPath(w, id, m, todo);
      if m !in held && faults.rows(m) {
        StepsCons(start, RecoverNext(id), [Crash(id)] + []);
        StepsCons(w1, Crash(id), []);
      } else if m !in held && faults.release(m) {
        StepsCons(start, RecoverNext(id), [RecoverRows(id)] + ([Crash(id)] + []));
        StepsCons(w1, RecoverRows(id), [Crash(id)] + []);
        StepsCons(Next(w1, RecoverRows(id)), Crash(id), []);
      } else {
        var rest := RecoveryActions(id, held, faults, todo);
        StepsCons(start, RecoverNext(id), [RecoverRows(id)] + ([Action.Release(id)] + rest));
        StepsCons(w1, RecoverRows(id), [Action.Release(id)] + rest);
        StepsCons(Next(w1, RecoverRows(id)), Action.Release(id), rest);
        RecoveryFollowsProtocol(if m in held then w else w.(journal := w.journal.(runs := RecoverMonitorRows(w.journal.runs, m))),
                                id, faults, todo);
      }
    }
  }
}

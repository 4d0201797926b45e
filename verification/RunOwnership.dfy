/**
 * Who may run a monitor: a lease per monitor, taken by scheduled runs, by state changes and by the
 * recovery of interrupted runs. Sessions of any number of workers interleave between their awaits and
 * may crash at any point; a crash frees the lease (an advisory lock lives as long as its connection).
 */
module RunOwnership {
  import opened Basics
  import opened MonitorStore

  type SessionId = nat

  datatype Run = Run(monitorId: MonitorId, outcome: RunOutcome, finished: bool)

  /** Where a session stands; the lease it holds is the monitor named by a `…ing` stage after acquiring. */
  datatype Session =
    | Overlapped(monitorId: MonitorId)
    | RunHolding(monitorId: MonitorId)
    | RunCleared(monitorId: MonitorId)
    | Traversing(monitorId: MonitorId, run: RunId)
    | RunReleasing(monitorId: MonitorId)
    | StateHolding(monitorId: MonitorId, target: MonitorState)
    | StateCleared(monitorId: MonitorId, target: MonitorState)
    | StateReleasing(monitorId: MonitorId)
    | Recovering(todo: seq<MonitorId>)
    | RecoverHolding(monitorId: MonitorId, todo: seq<MonitorId>)
    | RecoverReleasing(monitorId: MonitorId, todo: seq<MonitorId>)

  /** The tables a session writes. */
  datatype Journal = Journal(states: map<MonitorId, MonitorState>, runs: map<RunId, Run>, nextRunId: RunId)

  datatype World = World(journal: Journal, locks: map<MonitorId, SessionId>, sessions: map<SessionId, Session>)

  datatype Action =
    | CreateMonitor(monitorId: MonitorId)
    | Trigger(session: SessionId, monitorId: MonitorId)
    | RecordSkip(session: SessionId)
    | ReadState(session: SessionId)
    | StartJournal(session: SessionId)
    | CommitCycle(session: SessionId, outcome: RunOutcome)
    // `recorded` false: the write of the error row fails as well
    | FailCycle(session: SessionId, recorded: bool)
    | RequestState(session: SessionId, monitorId: MonitorId, target: MonitorState)
    | CheckTransition(session: SessionId, supported: bool)
    | ApplyState(session: SessionId, written: bool)
    | StartRecovery(session: SessionId, order: seq<MonitorId>)
    | RecoverNext(session: SessionId)
    | RecoverRows(session: SessionId)
    | Release(session: SessionId)
    | Crash(session: SessionId)

  // ----- writes

  function AddRun(j: Journal, run: Run): Journal {
    j.(runs := j.runs[j.nextRunId := run], nextRunId := j.nextRunId + 1)
  }

  /** `run.update` by id: the row is written whatever its outcome was. */
  function FinishRun(j: Journal, id: RunId, outcome: RunOutcome): Journal {
    if id in j.runs then j.(runs := j.runs[id := j.runs[id].(outcome := outcome, finished := true)]) else j
  }

  predicate IsOpen(run: Run) { run.outcome.Running? && !run.finished }

  /** `recoverMonitorRows` */
  function RecoverMonitorRows(runs: map<RunId, Run>, monitorId: MonitorId): map<RunId, Run> {
    map id | id in runs ::
      if runs[id].monitorId == monitorId && IsOpen(runs[id]) then runs[id].(outcome := Interrupted, finished := true)
      else runs[id]
  }

  /** The monitors that have an open row. */
  function Candidates(runs: map<RunId, Run>): set<MonitorId> {
    set id | id in runs && IsOpen(runs[id]) :: runs[id].monitorId
  }

  // ----- the steps

  function Held(session: Session): Option<MonitorId> {
    if session.Overlapped? || session.Recovering? then None else Some(session.monitorId)
  }

  function Move(w: World, id: SessionId, session: Session): World { w.(sessions := w.sessions[id := session]) }

  /** `acquire`: the lease and the next stage, or the stage of a refusal. */
  function Acquire(w: World, id: SessionId, monitorId: MonitorId, granted: Session): World {
    Move(w.(locks := w.locks[monitorId := id]), id, granted)
  }

  function End(w: World, id: SessionId): World { w.(sessions := w.sessions - {id}) }

  function Unlock(w: World, id: SessionId): World
    requires id in w.sessions
  {
    if Held(w.sessions[id]).Some? then w.(locks := w.locks - {Held(w.sessions[id]).value}) else w
  }

  function NextOf(w: World, id: SessionId, action: Action): World
    requires id in w.sessions
  {
    var session := w.sessions[id];
    match session
    case Overlapped(m) =>
      if action.RecordSkip? then End(w.(journal := AddRun(w.journal, Run(m, Skipped, true))), id) else w
    case RunHolding(m) =>
      if action.ReadState? then
        Move(w, id, if m in w.journal.states && w.journal.states[m].Active? then RunCleared(m) else RunReleasing(m))
      else w
    case RunCleared(m) =>
      if action.StartJournal? then
        Move(w.(journal := AddRun(w.journal, Run(m, Running, false))), id, Traversing(m, w.journal.nextRunId))
      else w
    case Traversing(m, run) =>
      if action.CommitCycle? && (action.outcome.Success? || action.outcome.Catchup?) then
        Move(w.(journal := FinishRun(w.journal, run, action.outcome)), id, RunReleasing(m))
      else if action.FailCycle? then
        Move(if action.recorded then w.(journal := FinishRun(w.journal, run, Errored)) else w, id, RunReleasing(m))
      else w
    case StateHolding(m, target) =>
      if action.CheckTransition? then
        Move(w, id,
             if m !in w.journal.states then StateReleasing(m)
             else if w.journal.states[m].Archived? && !target.Archived? && (!target.Active? || !action.supported)
             then StateReleasing(m) else StateCleared(m, target))
      else w
    case StateCleared(m, target) =>
      if action.ApplyState? then
        Move(if action.written then w.(journal := w.journal.(states := w.journal.states[m := target])) else w,
             id, StateReleasing(m))
      else w
    case Recovering(todo) =>
      if !action.RecoverNext? then w
      else if todo == [] then End(w, id)
      else if todo[0] in w.locks then Move(w, id, Recovering(todo[1..]))
      else Acquire(w, id, todo[0], RecoverHolding(todo[0], todo[1..]))
    case RecoverHolding(m, todo) =>
      if action.RecoverRows? then
        Move(w.(journal := w.journal.(runs := RecoverMonitorRows(w.journal.runs, m))), id, RecoverReleasing(m, todo))
      else w
    case RecoverReleasing(m, todo) =>
      if action.Release? then Move(Unlock(w, id), id, Recovering(todo)) else w
    case RunReleasing(m) => if action.Release? then End(Unlock(w, id), id) else w
    case StateReleasing(m) => if action.Release? then End(Unlock(w, id), id) else w
  }

  /** One step; an action that does not fit the session's stage changes nothing. */
  function Next(w: World, action: Action): World {
    if action.CreateMonitor? then
      if action.monitorId in w.journal.states then w
      else w.(journal := w.journal.(states := w.journal.states[action.monitorId := Active]))
    else
      var id := action.session;
      if id in w.sessions then
        if action.Crash? then End(Unlock(w, id), id) else NextOf(w, id, action)
      else
        match action
        case Trigger(_, m) =>
          if m in w.locks then Move(w, id, Overlapped(m)) else Acquire(w, id, m, RunHolding(m))
        case RequestState(_, m, target) =>
          if m in w.locks then w else Acquire(w, id, m, StateHolding(m, target))
        case StartRecovery(_, order) =>
          if Elements(order) == Candidates(w.journal.runs) then Move(w, id, Recovering(order)) else w
        case _ => w
  }

  // ----- the invariant

  ghost predicate LocksAreHeld(w: World) {
    && (forall m | m in w.locks :: w.locks[m] in w.sessions && Held(w.sessions[w.locks[m]]) == Some(m))
    && (forall id | id in w.sessions && Held(w.sessions[id]).Some? ::
          Held(w.sessions[id]).value in w.locks && w.locks[Held(w.sessions[id]).value] == id)
  }

  predicate IsActive(j: Journal, m: MonitorId) { m in j.states && j.states[m].Active? }

  ghost predicate RunsAreOwned(w: World) {
    && (forall id | id in w.sessions && (w.sessions[id].RunCleared? || w.sessions[id].Traversing?) ::
          IsActive(w.journal, w.sessions[id].monitorId))
    && (forall id | id in w.sessions && w.sessions[id].Traversing? ::
          w.sessions[id].run in w.journal.runs
          && w.journal.runs[w.sessions[id].run] == Run(w.sessions[id].monitorId, Running, false))
  }

  ghost predicate RowsAreSound(j: Journal) {
    forall r | r in j.runs :: r < j.nextRunId && (j.runs[r].finished <==> !j.runs[r].outcome.Running?)
  }

  ghost predicate Inv(w: World) { LocksAreHeld(w) && RunsAreOwned(w) && RowsAreSound(w.journal) }

  /** At most one live traversal per monitor. */
  ghost predicate OneTraversal(w: World) {
    forall a, b | a in w.sessions && b in w.sessions && w.sessions[a].Traversing? && w.sessions[b].Traversing?
                  && w.sessions[a].monitorId == w.sessions[b].monitorId :: a == b
  }

  ghost predicate ActiveThroughout(w: World) {
    forall id | id in w.sessions && w.sessions[id].Traversing? :: IsActive(w.journal, w.sessions[id].monitorId)
  }

  // ----- locks

  lemma MoveKeepsLocks(w: World, id: SessionId, session: Session)
    requires LocksAreHeld(w)
    requires if id in w.sessions then Held(session) == Held(w.sessions[id]) else Held(session).None?
    ensures LocksAreHeld(Move(w, id, session))
  {
  }

  lemma AcquireKeepsLocks(w: World, id: SessionId, m: MonitorId, session: Session)
    requires LocksAreHeld(w) && m !in w.locks && Held(session) == Some(m)
    requires id in w.sessions ==> Held(w.sessions[id]).None?
    ensures LocksAreHeld(Acquire(w, id, m, session))
  {
  }

  lemma UnlockKeepsLocks(w: World, id: SessionId)
    requires LocksAreHeld(w) && id in w.sessions
    ensures LocksAreHeld(End(Unlock(w, id), id))
    ensures forall todo :: LocksAreHeld(Move(Unlock(w, id), id, Recovering(todo)))
  {
  }

  lemma StepKeepsLocks(w: World, action: Action)
    requires LocksAreHeld(w)
    ensures LocksAreHeld(Next(w, action))
  {
    hide LocksAreHeld, Move, Acquire, Unlock, End;
    JournalIsFree(w);
    if !action.CreateMonitor? {
      var id := action.session;
      if id in w.sessions {
        var session := w.sessions[id];
        UnlockKeepsLocks(w, id);
        match session
        case Recovering(todo) =>
          if todo == [] {
            EndFreeKeepsLocks(w, id);
          } else if todo[0] in w.locks {
            MoveKeepsLocks(w, id, Recovering(todo[1..]));
          } else {
            AcquireKeepsLocks(w, id, todo[0], RecoverHolding(todo[0], todo[1..]));
          }
        case Overlapped(m) =>
          EndFreeKeepsLocks(w, id);
          EndFreeKeepsLocks(w.(journal := AddRun(w.journal, Run(m, Skipped, true))), id);
        case _ =>
          StageKeepsLocks(w, id, action);
      } else {
        match action
        case Trigger(_, m) =>
          if m in w.locks { MoveKeepsLocks(w, id, Overlapped(m)); } else { AcquireKeepsLocks(w, id, m, RunHolding(m)); }
        case RequestState(_, m, target) =>
          if m !in w.locks { AcquireKeepsLocks(w, id, m, StateHolding(m, target)); }
        case StartRecovery(_, order) =>
          MoveKeepsLocks(w, id, Recovering(order));
        case _ =>
      }
    }
  }

  lemma JournalIsFree(w: World)
    ensures forall j :: LocksAreHeld(w.(journal := j)) <==> LocksAreHeld(w)
  {
  }

  lemma EndFreeKeepsLocks(w: World, id: SessionId)
    requires LocksAreHeld(w) && id in w.sessions && Held(w.sessions[id]).None?
    ensures LocksAreHeld(End(w, id))
  {
  }

  lemma StageKeepsLocks(w: World, id: SessionId, action: Action)
    requires LocksAreHeld(w) && id in w.sessions && Held(w.sessions[id]).Some?
    ensures LocksAreHeld(NextOf(w, id, action))
  {
    hide LocksAreHeld, Unlock, End, Move;
    JournalIsFree(w);
    UnlockKeepsLocks(w, id);
    var after := NextOf(w, id, action);
    var m := w.sessions[id].monitorId;
    forall j: Journal, session: Session | Held(session) == Some(m)
      ensures LocksAreHeld(Move(w.(journal := j), id, session))
    {
      MoveKeepsLocks(w.(journal := j), id, session);
    }
  }

  // ----- ownership

  lemma DifferentMonitors(w: World, a: SessionId, b: SessionId)
    requires LocksAreHeld(w) && a in w.sessions && b in w.sessions && a != b
    requires Held(w.sessions[a]).Some? && Held(w.sessions[b]).Some?
    ensures w.sessions[a].monitorId != w.sessions[b].monitorId
  {
  }

  predicate Acts(action: Action, id: SessionId) { !action.CreateMonitor? && action.session == id }

  /** The rows and the states outside monitor `m` stay. */
  ghost predicate OnlyTouches(before: Journal, after: Journal, m: MonitorId) {
    && (forall r | r in before.runs && before.runs[r].monitorId != m :: r in after.runs && after.runs[r] == before.runs[r])
    && (forall other | other != m :: IsActive(before, other) <==> IsActive(after, other))
  }

  ghost predicate Keeps(before: Journal, after: Journal) {
    && (forall r | r in before.runs :: r in after.runs && after.runs[r] == before.runs[r])
    && (forall m | IsActive(before, m) :: IsActive(after, m))
  }

  lemma HolderWritesAtHome(w: World, id: SessionId, action: Action)
    requires RunsAreOwned(w) && RowsAreSound(w.journal) && id in w.sessions && Held(w.sessions[id]).Some?
    ensures OnlyTouches(w.journal, NextOf(w, id, action).journal, w.sessions[id].monitorId)
  {
    hide Acquire;
    var session := w.sessions[id];
    if session.Traversing? {
      FinishTouches(w.journal, session.run, session.monitorId);
    }
  }

  lemma FinishTouches(j: Journal, run: RunId, m: MonitorId)
    requires run in j.runs && j.runs[run].monitorId == m
    ensures forall outcome :: OnlyTouches(j, FinishRun(j, run, outcome), m)
  {
  }

  lemma AddKeeps(j: Journal)
    requires RowsAreSound(j)
    ensures forall run :: Keeps(j, AddRun(j, run))
  {
  }

  lemma FreeStepKeeps(w: World, action: Action)
    requires RowsAreSound(w.journal)
    requires action.CreateMonitor? || action.session !in w.sessions || Held(w.sessions[action.session]).None?
    ensures Keeps(w.journal, Next(w, action).journal)
  {
    AddKeeps(w.journal);
    hide AddRun, RowsAreSound;
  }

  lemma HolderStep(w: World, action: Action)
    requires Inv(w) && !action.CreateMonitor? && action.session in w.sessions && Held(w.sessions[action.session]).Some?
    ensures OnlyTouches(w.journal, Next(w, action).journal, w.sessions[action.session].monitorId)
  {
    hide NextOf;
    HolderWritesAtHome(w, action.session, action);
  }

  /**
   * Whatever any other session does, the stage of a session in its traversal, the row it is writing
   * and the state of its monitor stay as they are.
   */
  lemma OthersAreSpared(w: World, action: Action, owner: SessionId)
    requires Inv(w) && owner in w.sessions && !Acts(action, owner)
    requires w.sessions[owner].RunCleared? || w.sessions[owner].Traversing?
    ensures var after := Next(w, action); var session := w.sessions[owner];
            && owner in after.sessions && after.sessions[owner] == session
            && IsActive(after.journal, session.monitorId)
            && (session.Traversing? ==>
                  session.run in after.journal.runs && after.journal.runs[session.run] == w.journal.runs[session.run])
  {
    hide Next, IsActive, RowsAreSound;
    OnlyOwnStage(w, action, owner);
    if !action.CreateMonitor? && action.session in w.sessions && Held(w.sessions[action.session]).Some? {
      DifferentMonitors(w, owner, action.session);
      HolderStep(w, action);
    } else {
      FreeStepKeeps(w, action);
    }
  }

  lemma OwnStepKeepsRuns(w: World, action: Action, id: SessionId)
    requires Inv(w) && Acts(action, id) && id in Next(w, action).sessions
    requires Next(w, action).sessions[id].RunCleared? || Next(w, action).sessions[id].Traversing?
    ensures var after := Next(w, action); var session := after.sessions[id];
            && IsActive(after.journal, session.monitorId)
            && (session.Traversing? ==>
                  && session.run in after.journal.runs
                  && after.journal.runs[session.run] == Run(session.monitorId, Running, false))
  {
    hide LocksAreHeld, RowsAreSound, RecoverMonitorRows, FinishRun, Unlock;
    if id in w.sessions {
      if w.sessions[id].RunCleared? || w.sessions[id].Traversing? {
        assert IsActive(w.journal, w.sessions[id].monitorId);
      }
    }
  }

  lemma StepKeepsRuns(w: World, action: Action)
    requires Inv(w)
    ensures RunsAreOwned(Next(w, action))
  {
    hide Next, IsActive, LocksAreHeld, RowsAreSound;
    var after := Next(w, action);
    forall id | id in after.sessions && (after.sessions[id].RunCleared? || after.sessions[id].Traversing?)
      ensures IsActive(after.journal, after.sessions[id].monitorId)
      ensures after.sessions[id].Traversing? ==>
                && after.sessions[id].run in after.journal.runs
                && after.journal.runs[after.sessions[id].run] == Run(after.sessions[id].monitorId, Running, false)
    {
      if Acts(action, id) {
        OwnStepKeepsRuns(w, action, id);
      } else {
        OnlyOwnStage(w, action, id);
        OthersAreSpared(w, action, id);
      }
    }
  }

  lemma OnlyOwnStage(w: World, action: Action, id: SessionId)
    requires !Acts(action, id)
    ensures id in Next(w, action).sessions <==> id in w.sessions
    ensures id in w.sessions ==> Next(w, action).sessions[id] == w.sessions[id]
  {
  }

  lemma StepKeepsRows(w: World, action: Action)
    requires RowsAreSound(w.journal)
    ensures RowsAreSound(Next(w, action).journal)
  {
  }

  lemma StepKeepsInv(w: World, action: Action)
    requires Inv(w)
    ensures Inv(Next(w, action))
  {
    StepKeepsLocks(w, action);
    StepKeepsRuns(w, action);
    StepKeepsRows(w, action);
  }

  // ----- every schedule

  ghost predicate Initial(w: World) {
    w.locks == map[] && w.sessions == map[] && RowsAreSound(w.journal)
  }

  ghost predicate IsSchedule(worlds: seq<World>, actions: seq<Action>) {
    && |worlds| == |actions| + 1 && Initial(worlds[0])
    && forall k | 0 <= k < |actions| :: worlds[k + 1] == Next(worlds[k], actions[k])
  }

  lemma {:induction false} ScheduleKeepsInv(worlds: seq<World>, actions: seq<Action>, k: nat)
    requires IsSchedule(worlds, actions) && k < |worlds|
    ensures Inv(worlds[k])
  {
    if k > 0 {
      ScheduleKeepsInv(worlds, actions, k - 1);
      StepKeepsInv(worlds[k - 1], actions[k - 1]);
    }
  }

  /** In every schedule of triggers, state changes, recoveries and crashes. */
  lemma OwnershipAlwaysHolds(worlds: seq<World>, actions: seq<Action>, k: nat)
    requires IsSchedule(worlds, actions) && k < |worlds|
    ensures OneTraversal(worlds[k]) && ActiveThroughout(worlds[k])
  {
    ScheduleKeepsInv(worlds, actions, k);
    forall a, b | a in worlds[k].sessions && b in worlds[k].sessions && a != b
                  && worlds[k].sessions[a].Traversing? && worlds[k].sessions[b].Traversing?
      ensures worlds[k].sessions[a].monitorId != worlds[k].sessions[b].monitorId
    {
      DifferentMonitors(worlds[k], a, b);
    }
  }

  // ----- rows

  /** No live session will write the row any more. */
  ghost predicate Orphan(w: World, row: RunId) {
    && row in w.journal.runs && IsOpen(w.journal.runs[row])
    && forall id | id in w.sessions && w.sessions[id].Traversing? :: w.sessions[id].run != row
  }

  /** The only rows a step changes: the one its session is writing, and those a recovery interrupts. */
  lemma ChangedRows(w: World, action: Action, row: RunId)
    requires RowsAreSound(w.journal) && row in w.journal.runs
    requires !action.CreateMonitor? && action.session in w.sessions && w.sessions[action.session].Traversing? ==>
               w.sessions[action.session].run != row
    ensures var after := Next(w, action).journal;
      && row in after.runs
      && (|| after.runs[row] == w.journal.runs[row]
          || (action.RecoverRows? && IsOpen(w.journal.runs[row])
              && after.runs[row] == w.journal.runs[row].(outcome := Interrupted, finished := true)))
  {
  }

  /** A finished row never changes again, and an orphan is only ever changed by recovery, to interrupted. */
  lemma RowsMoveForward(w: World, action: Action, row: RunId)
    requires Inv(w) && row in w.journal.runs
    ensures row in Next(w, action).journal.runs
    ensures w.journal.runs[row].finished ==> Next(w, action).journal.runs[row] == w.journal.runs[row]
    ensures Orphan(w, row) ==>
              || Orphan(Next(w, action), row)
              || (&& action.RecoverRows?
                  && Next(w, action).journal.runs[row] == w.journal.runs[row].(outcome := Interrupted, finished := true))
  {
    RowsStay(w, action, row);
    if !action.CreateMonitor? && action.session in w.sessions {
      FinishedIsNotTraversed(w, action.session, row);
    }
    if w.journal.runs[row].finished || Orphan(w, row) {
      ChangedRows(w, action, row);
      NewTraversal(w, action, row);
      hide Next;
    }
  }

  lemma RowsStay(w: World, action: Action, row: RunId)
    requires RowsAreSound(w.journal) && row in w.journal.runs
    ensures row in Next(w, action).journal.runs
  {
  }

  lemma NewTraversal(w: World, action: Action, row: RunId)
    requires Inv(w) && row in w.journal.runs
    ensures forall id | id in Next(w, action).sessions && Next(w, action).sessions[id].Traversing?
                        && Next(w, action).sessions[id].run == row ::
              id in w.sessions && w.sessions[id].Traversing? && w.sessions[id].run == row
  {
    hide LocksAreHeld, RunsAreOwned, RecoverMonitorRows, FinishRun;
  }

  lemma FinishedIsNotTraversed(w: World, id: SessionId, row: RunId)
    requires Inv(w) && id in w.sessions && row in w.journal.runs
    ensures w.journal.runs[row].finished || Orphan(w, row) ==>
              !(w.sessions[id].Traversing? && w.sessions[id].run == row)
  {
  }

  /** The recovery of one monitor interrupts exactly its open rows, and all of them are orphans. */
  lemma RecoveryTakesOrphans(w: World, id: SessionId, row: RunId)
    requires Inv(w) && id in w.sessions && w.sessions[id].RecoverHolding? && row in w.journal.runs
    ensures var after := Next(w, RecoverRows(id)); var m := w.sessions[id].monitorId;
            && (w.journal.runs[row].monitorId == m && IsOpen(w.journal.runs[row]) <==>
                  Orphan(w, row) && w.journal.runs[row].monitorId == m)
            && after.journal.runs[row] == (if Orphan(w, row) && w.journal.runs[row].monitorId == m
                                           then Run(m, Interrupted, true) else w.journal.runs[row])
  {
    var m := w.sessions[id].monitorId;
    if w.journal.runs[row].monitorId == m {
      forall other | other in w.sessions && w.sessions[other].Traversing? ensures w.sessions[other].run != row {
        DifferentMonitors(w, other, id);
      }
    }
  }
}

/**
 * Delivery of one notification per job. Jobs run one after another; the worker may crash between any
 * two awaits and the queue may hand out the same job again. The columns `notificationSendingAt` and
 * `notifiedAt` of a match tell a later job how far an earlier one got.
 */
module OutboxDelivery {
  import opened Basics

  type MatchId = nat
  type ChatId = string

  const DEFAULT_MIN_CHAT_INTERVAL_MS: int := 3100

  datatype Payload = Payload(matchId: MatchId, chatId: ChatId, text: string)

  /** `archived` is the state of the match's monitor. */
  datatype Match = Match(notifiedAt: Option<int>, sendingAt: Option<int>, archived: bool)

  datatype Line = ResentFromUncertainState(matchId: MatchId) | PermanentlyRejected(matchId: MatchId)

  datatype Sent = Sent(matchId: MatchId, accepted: bool)

  /** How `sendMessage` ends; a failure that is not permanent leaves open whether the message arrived. */
  datatype SendOutcome = Delivered | Permanent | Transient(arrived: bool)

  /** Where the running job is suspended. */
  datatype Stage =
    | Received(job: Payload)
    | NotNotified(job: Payload)
    | NotArchived(job: Payload)
    | SendingRead(job: Payload)
    | Waiting(job: Payload, until: int)
    | Attempting(job: Payload, until: int)
    | Marked(job: Payload)
    | Acknowledged(job: Payload)

  /** `sends`, `journal` and `attempts` record what happened; a crash forgets the process's own memory. */
  datatype State = State(
    matches: map<MatchId, Match>,
    nextMatch: MatchId,
    lastAttemptAtByChat: map<ChatId, int>,
    stage: Option<Stage>,
    clock: int,
    sends: seq<Sent>,
    journal: seq<Line>,
    attempts: seq<(ChatId, int)>)

  datatype Action =
    | CreateMatch
    | SetArchived(matchId: MatchId, archived: bool)
    | DeleteMatch(matchId: MatchId)
    | Receive(job: Payload)
    // `now`: the clock when the await is over; `written`: the write succeeds; `outcome`: of the send
    | Advance(now: int, written: bool, outcome: SendOutcome)
    | Crash

  // ----- the repository's guarded writes

  function WithSending(matches: map<MatchId, Match>, id: MatchId, at: int): map<MatchId, Match> {
    if id in matches && matches[id].notifiedAt.None? then matches[id := matches[id].(sendingAt := Some(at))] else matches
  }

  function WithNotified(matches: map<MatchId, Match>, id: MatchId, at: int): map<MatchId, Match> {
    if id in matches && matches[id].notifiedAt.None?
    then matches[id := matches[id].(notifiedAt := Some(at), sendingAt := None)] else matches
  }

  predicate MonitorNotArchived(matches: map<MatchId, Match>, id: MatchId) { id in matches && !matches[id].archived }

  // ----- the steps

  function ThrottledUntil(s: State, chatId: ChatId, interval: int, now: int): int {
    if chatId in s.lastAttemptAtByChat && interval - (now - s.lastAttemptAtByChat[chatId]) > 0
    then s.lastAttemptAtByChat[chatId] + interval else now
  }

  function EndJob(s: State): State { s.(stage := None) }

  /** The job goes on from its stage to the next await. */
  function Continue(s: State, interval: int, now: int, written: bool, outcome: SendOutcome): State
    requires s.stage.Some?
  {
    var job := s.stage.value.job;
    var id := job.matchId;
    match s.stage.value
    case Received(_) =>
      if id !in s.matches || s.matches[id].notifiedAt.Some? then EndJob(s) else s.(stage := Some(NotNotified(job)))
    case NotNotified(_) =>
      if MonitorNotArchived(s.matches, id) then s.(stage := Some(NotArchived(job))) else EndJob(s)
    case NotArchived(_) =>
      if id !in s.matches then EndJob(s)
      else if s.matches[id].sendingAt.Some?
      then s.(stage := Some(SendingRead(job)), journal := s.journal + [ResentFromUncertainState(id)])
      else s.(stage := Some(SendingRead(job)))
    case SendingRead(_) => s.(stage := Some(Waiting(job, ThrottledUntil(s, job.chatId, interval, now))))
    case Waiting(_, until) =>
      if now < until then s
      else if MonitorNotArchived(s.matches, id) then s.(stage := Some(Attempting(job, until))) else EndJob(s)
    case Attempting(_, _) =>
      var attempted := s.(lastAttemptAtByChat := s.lastAttemptAtByChat[job.chatId := now],
                          attempts := s.attempts + [(job.chatId, now)]);
      if written then attempted.(matches := WithSending(s.matches, id, now), stage := Some(Marked(job)))
      else EndJob(attempted)
    case Marked(_) =>
      (match outcome
       case Delivered => s.(stage := Some(Acknowledged(job)), sends := s.sends + [Sent(id, true)])
       case Permanent => EndJob(s.(sends := s.sends + [Sent(id, false)], journal := s.journal + [PermanentlyRejected(id)]))
       case Transient(arrived) => EndJob(s.(sends := s.sends + [Sent(id, arrived)])))
    case Acknowledged(_) => EndJob(if written then s.(matches := WithNotified(s.matches, id, now)) else s)
  }

  function Next(s: State, interval: int, action: Action): State {
    match action
    case CreateMatch => s.(matches := s.matches[s.nextMatch := Match(None, None, false)], nextMatch := s.nextMatch + 1)
    case SetArchived(id, archived) =>
      if id in s.matches then s.(matches := s.matches[id := s.matches[id].(archived := archived)]) else s
    case DeleteMatch(id) => s.(matches := s.matches - {id})
    case Receive(job) => if s.stage.None? && job.matchId < s.nextMatch then s.(stage := Some(Received(job))) else s
    case Advance(now, written, outcome) =>
      if s.stage.None? || now < s.clock then s else Continue(s.(clock := now), interval, now, written, outcome)
    case Crash => s.(stage := None, lastAttemptAtByChat := map[], attempts := [])
  }

  /** The state after a list of actions. */
  function Steps(s: State, interval: int, actions: seq<Action>): State {
    if actions == [] then s
    else Next(Steps(s, interval, actions[..|actions| - 1]), interval, actions[|actions| - 1])
  }

  lemma StepsAppend(s: State, interval: int, actions: seq<Action>, action: Action)
    ensures Steps(s, interval, actions + [action]) == Next(Steps(s, interval, actions), interval, action)
  {
    assert (actions + [action])[..|actions|] == actions;
  }

  // ----- the handler

  /** What a job meets: how long each await takes, what happens to the monitor meanwhile, which writes succeed. */
  datatype Environment = Environment(
    elapsed: nat -> nat,
    archivedMeanwhile: bool,
    sendingWritten: bool,
    outcome: SendOutcome,
    notifiedWritten: bool)

  /** The match is to be notified, and its monitor runs. */
  predicate Live(matches: map<MatchId, Match>, id: MatchId) {
    id in matches && matches[id].notifiedAt.None? && !matches[id].archived
  }

  /** One attempt to the chat, no sooner than the interval after the last. */
  ghost predicate AttemptedOnce(before: State, chatId: ChatId, interval: int, after: State) {
    exists at ::
      && after.attempts == before.attempts + [(chatId, at)]
      && after.lastAttemptAtByChat == before.lastAttemptAtByChat[chatId := at]
      && before.clock <= at <= after.clock
      && (chatId in before.lastAttemptAtByChat ==> at >= before.lastAttemptAtByChat[chatId] + interval)
  }

  /**
   * The records around one attempt, which is made if the job gets that far: whether the message is sent,
   * what is written to the journal behind `lines`, and the state of the match. The job throws exactly
   * when a write fails or the send fails without being refused for good.
   */
  ghost predicate AttemptEffect(before: State, job: Payload, env: Environment, attempted: bool, lines: seq<Line>,
                                after: State, thrown: bool)
  {
    var id := job.matchId;
    var sent := attempted && env.sendingWritten;
    var notified := sent && env.outcome.Delivered? && env.notifiedWritten;
    && (thrown <==> attempted && (!env.sendingWritten || env.outcome.Transient?
                                  || (env.outcome.Delivered? && !env.notifiedWritten)))
    && after.sends == before.sends + (if sent then [Sent(id, env.outcome.Delivered? || env.outcome == Transient(true))] else [])
    && after.journal == before.journal + lines + (if sent && env.outcome.Permanent? then [PermanentlyRejected(id)] else [])
    && after.matches.Keys == before.matches.Keys
    && (forall other | other in before.matches && other != id :: after.matches[other] == before.matches[other])
    && (id in before.matches && before.matches[id].notifiedAt.None? ==>
          && after.matches[id].notifiedAt.Some? == notified
          && (if notified then after.matches[id].sendingAt.None?
              else if sent then after.matches[id].sendingAt.Some?
              else after.matches[id].sendingAt == before.matches[id].sendingAt))
    && (id in before.matches && before.matches[id].notifiedAt.Some? ==>
          after.matches[id].notifiedAt == before.matches[id].notifiedAt
          && after.matches[id].sendingAt == before.matches[id].sendingAt)
  }

  /** Everything one job leaves behind. */
  ghost predicate JobEffect(before: State, job: Payload, env: Environment, interval: int, after: State, thrown: bool) {
    var id := job.matchId;
    var live := Live(before.matches, id);
    var attempted := live && !env.archivedMeanwhile;
    && AttemptEffect(before, job, env, attempted,
                     if live && before.matches[id].sendingAt.Some? then [ResentFromUncertainState(id)] else [], after, thrown)
    && (id in before.matches ==>
          after.matches[id].archived == (before.matches[id].archived || (live && env.archivedMeanwhile)))
    && (if attempted then AttemptedOnce(before, job.chatId, interval, after)
        else after.attempts == before.attempts && after.lastAttemptAtByChat == before.lastAttemptAtByChat)
  }

  class TelegramOutboxDelivery {
    const minChatIntervalMs: int
    var matches: map<MatchId, Match>
    var lastAttemptAtByChat: map<ChatId, int>
    var clock: int
    ghost var nextMatch: MatchId
    ghost var sends: seq<Sent>
    ghost var journal: seq<Line>
    ghost var attempts: seq<(ChatId, int)>

    /** A worker starts over the matches it finds, and remembers no attempt. */
    constructor (matches: map<MatchId, Match>, clock: int, ghost past: State, interval: int := DEFAULT_MIN_CHAT_INTERVAL_MS)
      requires past.matches == matches && past.clock == clock && past.stage.None?
      ensures minChatIntervalMs == interval
      ensures View(None) == Next(past, interval, Crash)
    {
      minChatIntervalMs := interval;
      this.matches, this.clock, lastAttemptAtByChat := matches, clock, map[];
      nextMatch, sends, journal, attempts := past.nextMatch, past.sends, past.journal, [];
    }

    ghost function View(stage: Option<Stage>): State
      reads this
    {
      State(matches, nextMatch, lastAttemptAtByChat, stage, clock, sends, journal, attempts)
    }

    method MarkSending(id: MatchId, at: int)
      modifies this`matches
      ensures matches == WithSending(old(matches), id, at)
    {
      if id in matches && matches[id].notifiedAt.None? {
        matches := matches[id := matches[id].(sendingAt := Some(at))];
      }
    }

    method MarkNotified(id: MatchId, at: int)
      modifies this`matches
      ensures matches == WithNotified(old(matches), id, at)
    {
      if id in matches && matches[id].notifiedAt.None? {
        matches := matches[id := matches[id].(notifiedAt := Some(at), sendingAt := None)];
      }
    }

    /** The three reads before the throttle. */
    method CheckJob(job: Payload, env: Environment, ghost start: State) returns (proceed: bool, ghost trace: seq<Action>)
      requires job.matchId < nextMatch && start == View(None)
      modifies this
      ensures IsJobTrace(job, trace)
      ensures View(if proceed then Some(SendingRead(job)) else None) == Steps(start, minChatIntervalMs, trace)
      ensures proceed <==> Live(old(matches), job.matchId)
      ensures matches == old(matches) && sends == old(sends) && clock >= old(clock)
      ensures lastAttemptAtByChat == old(lastAttemptAtByChat) && attempts == old(attempts) && nextMatch == old(nextMatch)
      ensures journal == old(journal) + if proceed && matches[job.matchId].sendingAt.Some?
                                        then [ResentFromUncertainState(job.matchId)] else []
    {
      hide Steps;
      var id := job.matchId;
      trace := [Receive(job)];
      OneStep(start, minChatIntervalMs, Receive(job));

      // getNotifiedAt
      clock := clock + env.elapsed(0);
      trace := Extend(job, start, minChatIntervalMs, trace, Advance(clock, true, env.outcome));
      if id !in matches || matches[id].notifiedAt.Some? {
        return false, trace;
      }

      // isMonitorNotArchived
      clock := clock + env.elapsed(1);
      trace := Extend(job, start, minChatIntervalMs, trace, Advance(clock, true, env.outcome));
      if matches[id].archived {
        return false, trace;
      }

      // getSendingAt
      clock := clock + env.elapsed(2);
      trace := Extend(job, start, minChatIntervalMs, trace, Advance(clock, true, env.outcome));
      if matches[id].sendingAt.Some? {
        journal := journal + [ResentFromUncertainState(id)];
      }
      proceed := true;
    }

    /** The throttle of the chat, and the second look at the monitor behind it. */
    method Throttle(job: Payload, env: Environment, ghost start: State, ghost before: seq<Action>)
      returns (proceed: bool, ghost trace: seq<Action>)
      requires Live(matches, job.matchId) && IsJobTrace(job, before)
      requires View(Some(SendingRead(job))) == Steps(start, minChatIntervalMs, before)
      modifies this
      ensures IsJobTrace(job, trace)
      ensures proceed <==> !env.archivedMeanwhile
      ensures var row := old(matches)[job.matchId];
        matches == old(matches)[job.matchId := if proceed then row else row.(archived := true)]
      ensures sends == old(sends) && journal == old(journal) && clock >= old(clock)
      ensures lastAttemptAtByChat == old(lastAttemptAtByChat) && attempts == old(attempts) && nextMatch == old(nextMatch)
      ensures job.chatId in lastAttemptAtByChat ==> clock >= lastAttemptAtByChat[job.chatId] + minChatIntervalMs
      ensures proceed ==> exists until :: View(Some(Attempting(job, until))) == Steps(start, minChatIntervalMs, trace)
      ensures !proceed ==> View(None) == Steps(start, minChatIntervalMs, trace)
    {
      hide Steps;
      var id := job.matchId;
      trace := Extend(job, start, minChatIntervalMs, before, Advance(clock, true, env.outcome));
      if job.chatId in lastAttemptAtByChat {
        var remainingDelayMs := minChatIntervalMs - (clock - lastAttemptAtByChat[job.chatId]);
        if remainingDelayMs > 0 {
          clock := clock + remainingDelayMs;
        }
      }
      ghost var until := clock;
      ghost var waiting := Steps(start, minChatIntervalMs, trace);
      assert waiting.stage == Some(Waiting(job, until));
      if env.archivedMeanwhile {
        trace := Extend(job, start, minChatIntervalMs, trace, SetArchived(id, true));
        matches := matches[id := matches[id].(archived := true)];
      }
      clock := clock + env.elapsed(3);
      trace := Extend(job, start, minChatIntervalMs, trace, Advance(clock, true, env.outcome));
      proceed := !matches[id].archived;
      assert proceed ==> View(Some(Attempting(job, until))) == Steps(start, minChatIntervalMs, trace);
    }

    /** Mark as sending, send, mark as notified. */
    method Attempt(job: Payload, env: Environment, ghost start: State, ghost before: seq<Action>, ghost until: int)
      returns (thrown: bool, ghost trace: seq<Action>)
      requires IsJobTrace(job, before) && View(Some(Attempting(job, until))) == Steps(start, minChatIntervalMs, before)
      requires Live(matches, job.matchId)
      modifies this
      ensures IsJobTrace(job, trace) && View(None) == Steps(start, minChatIntervalMs, trace)
      ensures AttemptEffect(old(View(None)), job, env, true, [], View(None), thrown)
      ensures var s := old(View(None));
        && attempts == s.attempts + [(job.chatId, s.clock)]
        && lastAttemptAtByChat == s.lastAttemptAtByChat[job.chatId := s.clock]
        && clock >= s.clock && nextMatch == s.nextMatch
      ensures job.matchId in matches && matches[job.matchId].archived == old(matches[job.matchId].archived)
    {
      hide Steps;
      trace := Extend(job, start, minChatIntervalMs, before, Advance(clock, env.sendingWritten, env.outcome));
      lastAttemptAtByChat := lastAttemptAtByChat[job.chatId := clock];
      attempts := attempts + [(job.chatId, clock)];
      if !env.sendingWritten {
        return true, trace;
      }
      MarkSending(job.matchId, clock);
      thrown, trace := Send(job, env, start, trace);
    }

    method Send(job: Payload, env: Environment, ghost start: State, ghost before: seq<Action>)
      returns (thrown: bool, ghost trace: seq<Action>)
      requires IsJobTrace(job, before) && View(Some(Marked(job))) == Steps(start, minChatIntervalMs, before)
      requires job.matchId in matches && matches[job.matchId].notifiedAt.None? && matches[job.matchId].sendingAt.Some?
      modifies this
      ensures IsJobTrace(job, trace) && View(None) == Steps(start, minChatIntervalMs, trace)
      ensures AttemptEffect(old(View(None)), job, env.(sendingWritten := true), true, [], View(None), thrown)
      ensures lastAttemptAtByChat == old(lastAttemptAtByChat) && attempts == old(attempts) && nextMatch == old(nextMatch)
      ensures clock >= old(clock)
      ensures job.matchId in matches && matches[job.matchId].archived == old(matches[job.matchId].archived)
    {
      hide Steps, IsJobTrace, ThrottledUntil, WithSending;
      var id := job.matchId;
      clock := clock + env.elapsed(4);
      trace := Extend(job, start, minChatIntervalMs, before, Advance(clock, true, env.outcome));
      match env.outcome
      case Permanent =>
        sends := sends + [Sent(id, false)];
        journal := journal + [PermanentlyRejected(id)];
        return false, trace;
      case Transient(arrived) =>
        sends := sends + [Sent(id, arrived)];
        return true, trace;
      case Delivered =>
        sends := sends + [Sent(id, true)];
        clock := clock + env.elapsed(5);
        trace := Extend(job, start, minChatIntervalMs, trace, Advance(clock, env.notifiedWritten, env.outcome));
        if !env.notifiedWritten {
          return true, trace;
        }
        MarkNotified(id, clock);
        thrown := false;
    }

    /**
     * The handler without a crash: `trace` is the path it takes through the steps, and `JobEffect` says
     * what it leaves behind and when it throws, so that the job is tried again.
     */
    method Deliver(job: Payload, env: Environment) returns (thrown: bool, ghost trace: seq<Action>)
      requires job.matchId < nextMatch
      modifies this
      ensures IsJobTrace(job, trace) && View(None) == Steps(old(View(None)), minChatIntervalMs, trace)
      ensures JobEffect(old(View(None)), job, env, minChatIntervalMs, View(None), thrown)
    {
      hide Steps, IsJobTrace;
      ghost var start := View(None);
      var proceed;
      proceed, trace := CheckJob(job, env, start);
      if !proceed {
        return false, trace;
      }
      proceed, trace := Throttle(job, env, start, trace);
      if !proceed {
        return false, trace;
      }
      ghost var until :| View(Some(Attempting(job, until))) == Steps(start, minChatIntervalMs, trace);
      thrown, trace := Attempt(job, env, start, trace, until);
    }
  }

  /** A job's own path: received once, then only its awaits and what happens to the monitor meanwhile. */
  ghost predicate IsJobTrace(job: Payload, trace: seq<Action>) {
    && trace != [] && trace[0] == Receive(job)
    && forall k | 1 <= k < |trace| :: trace[k].Advance? || trace[k].SetArchived?
  }

  lemma OneStep(s: State, interval: int, action: Action)
    ensures Steps(s, interval, [action]) == Next(s, interval, action)
  {
    StepsAppend(s, interval, [], action);
    assert [] + [action] == [action];
  }

  lemma Extend(job: Payload, s: State, interval: int, actions: seq<Action>, action: Action) returns (longer: seq<Action>)
    requires IsJobTrace(job, actions) && (action.Advance? || action.SetArchived?)
    ensures IsJobTrace(job, longer)
    ensures Steps(s, interval, longer) == Next(Steps(s, interval, actions), interval, action)
  {
    longer := actions + [action];
    StepsAppend(s, interval, actions, action);
  }

  // ----- counting

  function CountSends(sends: seq<Sent>, id: MatchId): nat {
    if sends == [] then 0
    else CountSends(sends[..|sends| - 1], id) + if sends[|sends| - 1].matchId == id then 1 else 0
  }

  function CountResent(journal: seq<Line>, id: MatchId): nat {
    if journal == [] then 0
    else CountResent(journal[..|journal| - 1], id)
         + if journal[|journal| - 1] == ResentFromUncertainState(id) then 1 else 0
  }

  lemma CountAppend(sends: seq<Sent>, sent: Sent, journal: seq<Line>, line: Line)
    ensures forall id :: CountSends(sends + [sent], id) == CountSends(sends, id) + if sent.matchId == id then 1 else 0
    ensures forall id :: CountResent(journal + [line], id)
                         == CountResent(journal, id) + if line == ResentFromUncertainState(id) then 1 else 0
  {
    assert (sends + [sent])[..|sends|] == sends && (journal + [line])[..|journal|] == journal;
  }

  // ----- the invariant

  /** The job has passed its checks for the match and will send unless something ends it. */
  predicate WillSend(stage: Option<Stage>, id: MatchId) {
    stage.Some? && stage.value.job.matchId == id
    && (stage.value.SendingRead? || stage.value.Waiting? || stage.value.Attempting? || stage.value.Marked?)
  }

  /** The bound on sends, counting the one the running job is about to make. */
  ghost predicate Bounded(s: State, id: MatchId) {
    CountSends(s.sends, id) + (if WillSend(s.stage, id) then 1 else 0) <= 1 + CountResent(s.journal, id)
  }

  /** A match that was sent, and is not notified, is marked as uncertain. */
  ghost predicate Remembered(s: State, id: MatchId) {
    id in s.matches && (CountSends(s.sends, id) > 0 || (s.stage.Some? && s.stage.value.job.matchId == id && s.stage.value.Marked?)) ==>
      s.matches[id].notifiedAt.Some? || s.matches[id].sendingAt.Some?
  }

  ghost predicate AcceptedBefore(sends: seq<Sent>, id: MatchId) { Sent(id, true) in sends }

  ghost predicate Honest(s: State, id: MatchId) {
    && (id in s.matches && s.matches[id].notifiedAt.Some? ==> AcceptedBefore(s.sends, id))
    && (s.stage.Some? && s.stage.value.Acknowledged? && s.stage.value.job.matchId == id ==> AcceptedBefore(s.sends, id))
  }

  /** A job past its first check works on a match that is not notified. */
  ghost predicate Unnotified(s: State) {
    s.stage.Some? && !s.stage.value.Received? && s.stage.value.job.matchId in s.matches ==>
      s.matches[s.stage.value.job.matchId].notifiedAt.None?
  }

  ghost predicate KnownIds(s: State) {
    && (forall id | id in s.matches :: id < s.nextMatch)
    && (s.stage.Some? ==> s.stage.value.job.matchId < s.nextMatch)
    && (forall k | 0 <= k < |s.sends| :: s.sends[k].matchId < s.nextMatch)
  }

  /** Attempts of one process to one chat. */
  ghost predicate Paced(s: State, interval: int) {
    && (forall i, j | 0 <= i < j < |s.attempts| && s.attempts[i].0 == s.attempts[j].0 ::
          s.attempts[j].1 >= s.attempts[i].1 + interval)
    && (forall i | 0 <= i < |s.attempts| ::
          s.attempts[i].0 in s.lastAttemptAtByChat && s.attempts[i].1 <= s.lastAttemptAtByChat[s.attempts[i].0] <= s.clock)
    && (s.stage.Some? && (s.stage.value.Waiting? || s.stage.value.Attempting?) ==>
          var chat := s.stage.value.job.chatId;
          && (chat in s.lastAttemptAtByChat ==> s.stage.value.until >= s.lastAttemptAtByChat[chat] + interval)
          && (s.stage.value.Attempting? ==> s.clock >= s.stage.value.until))
  }

  ghost predicate Inv(s: State) {
    && Unnotified(s) && KnownIds(s)
    && forall id :: Bounded(s, id) && Remembered(s, id) && Honest(s, id)
  }

  lemma {:induction false} NeverSent(sends: seq<Sent>, id: MatchId)
    requires forall k | 0 <= k < |sends| :: sends[k].matchId != id
    ensures CountSends(sends, id) == 0
  {
    if sends != [] {
      NeverSent(sends[..|sends| - 1], id);
    }
  }

  lemma ContinueKeepsIds(s: State, interval: int, now: int, written: bool, outcome: SendOutcome)
    requires s.stage.Some? && Unnotified(s) && KnownIds(s)
    ensures Unnotified(Continue(s, interval, now, written, outcome)) && KnownIds(Continue(s, interval, now, written, outcome))
  {
  }

  /** What one step can add to the records. */
  lemma CountAll(s: State, id: MatchId)
    ensures forall sent: Sent :: CountSends(s.sends + [sent], id) == CountSends(s.sends, id) + if sent.matchId == id then 1 else 0
    ensures forall line: Line :: CountResent(s.journal + [line], id)
                                 == CountResent(s.journal, id) + if line == ResentFromUncertainState(id) then 1 else 0
  {
    forall sent: Sent ensures CountSends(s.sends + [sent], id) == CountSends(s.sends, id) + if sent.matchId == id then 1 else 0 {
      CountAppend(s.sends, sent, s.journal, PermanentlyRejected(id));
    }
    forall line: Line ensures CountResent(s.journal + [line], id)
                              == CountResent(s.journal, id) + if line == ResentFromUncertainState(id) then 1 else 0
    {
      CountAppend(s.sends, Sent(id, false), s.journal, line);
    }
  }

  predicate IsUncertain(s: State, id: MatchId) { id in s.matches && s.matches[id].sendingAt.Some? }

  lemma ContinueCounts(s: State, interval: int, now: int, written: bool, outcome: SendOutcome, id: MatchId)
    requires s.stage.Some?
    ensures var after := Continue(s, interval, now, written, outcome); var stage := s.stage.value;
            var mine := stage.job.matchId == id;
            && CountSends(after.sends, id) == CountSends(s.sends, id) + (if mine && stage.Marked? then 1 else 0)
            && CountResent(after.journal, id)
               == CountResent(s.journal, id) + (if mine && stage.NotArchived? && IsUncertain(s, id) then 1 else 0)
            && (WillSend(after.stage, id) ==>
                  mine && ((stage.NotArchived? && id in s.matches) || (WillSend(s.stage, id) && !stage.Marked?)))
  {
    CountAll(s, id);
    hide CountSends, CountResent, WithSending, WithNotified, ThrottledUntil, MonitorNotArchived;
  }

  ghost predicate Traced(matches: map<MatchId, Match>, id: MatchId) {
    id in matches && (matches[id].notifiedAt.Some? || matches[id].sendingAt.Some?)
  }

  lemma ContinueMatches(s: State, interval: int, now: int, written: bool, outcome: SendOutcome, id: MatchId)
    requires s.stage.Some?
    ensures var after := Continue(s, interval, now, written, outcome);
            && (id in after.matches <==> id in s.matches)
            && (Traced(s.matches, id) ==> Traced(after.matches, id))
            && (after.stage.Some? && after.stage.value.job.matchId == id && after.stage.value.Marked? && id in after.matches ==>
                  Traced(after.matches, id))
  {
    hide ThrottledUntil, MonitorNotArchived;
  }

  lemma ContinueKeepsBound(s: State, interval: int, now: int, written: bool, outcome: SendOutcome, id: MatchId)
    requires s.stage.Some? && Inv(s)
    ensures Bounded(Continue(s, interval, now, written, outcome), id)
  {
    assert Bounded(s, id) && Remembered(s, id) && Unnotified(s);
    hide Continue, CountSends, CountResent, Inv, KnownIds, Honest;
    ContinueCounts(s, interval, now, written, outcome, id);
  }

  lemma ContinueKeepsMemory(s: State, interval: int, now: int, written: bool, outcome: SendOutcome, id: MatchId)
    requires s.stage.Some? && Inv(s)
    ensures Remembered(Continue(s, interval, now, written, outcome), id)
  {
    assert Remembered(s, id);
    hide Continue, CountSends, CountResent, Inv, KnownIds, Honest, Bounded, Unnotified;
    ContinueCounts(s, interval, now, written, outcome, id);
    ContinueMatches(s, interval, now, written, outcome, id);
  }

  lemma ContinueKeepsHonesty(s: State, interval: int, now: int, written: bool, outcome: SendOutcome, id: MatchId)
    requires s.stage.Some? && Inv(s)
    ensures Honest(Continue(s, interval, now, written, outcome), id)
  {
    assert Honest(s, id) && Honest(s, s.stage.value.job.matchId);
    assert forall sent :: sent in s.sends + [Sent(id, true)] <==> sent in s.sends || sent == Sent(id, true);
    var last := s.sends + [Sent(s.stage.value.job.matchId, true)];
    assert last[|s.sends|] == Sent(s.stage.value.job.matchId, true);
    hide Inv, KnownIds, CountSends, CountResent;
  }

  lemma OtherStepKeepsInv(s: State, interval: int, action: Action)
    requires Inv(s) && !action.Advance?
    ensures Inv(Next(s, interval, action))
  {
    var after := Next(s, interval, action);
    if action.CreateMatch? {
      NeverSent(s.sends, s.nextMatch);
    }
    forall id ensures Bounded(after, id) && Remembered(after, id) && Honest(after, id) {
      assert Bounded(s, id) && Remembered(s, id) && Honest(s, id);
    }
  }

  lemma StepKeepsInv(s: State, interval: int, action: Action)
    requires Inv(s)
    ensures Inv(Next(s, interval, action))
  {
    if action.Advance? {
      if s.stage.Some? && action.now >= s.clock {
        var timed := s.(clock := action.now);
        ClockIsFree(s, action.now);
        ContinueKeepsIds(timed, interval, action.now, action.written, action.outcome);
        forall id
          ensures var after := Next(s, interval, action); Bounded(after, id) && Remembered(after, id) && Honest(after, id)
        {
          ContinueKeepsBound(timed, interval, action.now, action.written, action.outcome, id);
          ContinueKeepsMemory(timed, interval, action.now, action.written, action.outcome, id);
          ContinueKeepsHonesty(timed, interval, action.now, action.written, action.outcome, id);
        }
      }
    } else {
      OtherStepKeepsInv(s, interval, action);
    }
  }

  lemma ClockIsFree(s: State, now: int)
    requires Inv(s)
    ensures Inv(s.(clock := now))
  {
    var timed := s.(clock := now);
    forall id ensures Bounded(timed, id) && Remembered(timed, id) && Honest(timed, id) {
      assert Bounded(s, id) && Remembered(s, id) && Honest(s, id);
    }
  }

  lemma AttemptKeepsPace(s: State, interval: int, matches: map<MatchId, Match>, stage: Option<Stage>)
    requires Paced(s, interval) && interval >= 0 && s.stage.Some? && s.stage.value.Attempting?
    requires stage.Some? ==> stage.value.Marked?
    ensures var chat := s.stage.value.job.chatId;
            Paced(s.(matches := matches, stage := stage, lastAttemptAtByChat := s.lastAttemptAtByChat[chat := s.clock],
                     attempts := s.attempts + [(chat, s.clock)]), interval)
  {
  }

  lemma WaitKeepsPace(s: State, interval: int, now: int, written: bool, outcome: SendOutcome)
    requires Paced(s, interval) && s.stage.Some? && s.clock == now
    requires s.stage.value.SendingRead? || s.stage.value.Waiting?
    ensures Paced(Continue(s, interval, now, written, outcome), interval)
  {
  }

  lemma QuietKeepsPace(s: State, interval: int, now: int, written: bool, outcome: SendOutcome)
    requires Paced(s, interval) && s.stage.Some?
    requires !s.stage.value.SendingRead? && !s.stage.value.Waiting? && !s.stage.value.Attempting?
    ensures Paced(Continue(s, interval, now, written, outcome), interval)
  {
    hide WithSending, WithNotified;
  }

  lemma StepKeepsPace(s: State, interval: int, action: Action)
    requires Paced(s, interval) && interval >= 0
    ensures Paced(Next(s, interval, action), interval)
  {
    if action.Advance? {
      if s.stage.Some? && action.now >= s.clock {
        var timed := s.(clock := action.now);
        var after := Continue(timed, interval, action.now, action.written, action.outcome);
        if s.stage.value.Attempting? {
          AttemptKeepsPace(timed, interval, after.matches, after.stage);
        } else if s.stage.value.SendingRead? || s.stage.value.Waiting? {
          WaitKeepsPace(timed, interval, action.now, action.written, action.outcome);
        } else {
          QuietKeepsPace(timed, interval, action.now, action.written, action.outcome);
        }
      }
    }
  }

  // ----- every run

  ghost predicate Initial(s: State) {
    s.matches == map[] && s.nextMatch == 0 && s.lastAttemptAtByChat == map[] && s.stage.None?
    && s.sends == [] && s.journal == [] && s.attempts == []
  }

  ghost predicate IsRun(interval: int, states: seq<State>, actions: seq<Action>) {
    && |states| == |actions| + 1 && Initial(states[0])
    && forall k | 0 <= k < |actions| :: states[k + 1] == Next(states[k], interval, actions[k])
  }

  lemma {:induction false} RunKeepsInv(interval: int, states: seq<State>, actions: seq<Action>, k: nat)
    requires IsRun(interval, states, actions) && k < |states| && interval >= 0
    ensures Inv(states[k]) && Paced(states[k], interval)
  {
    if k > 0 {
      RunKeepsInv(interval, states, actions, k - 1);
      StepKeepsInv(states[k - 1], interval, actions[k - 1]);
      StepKeepsPace(states[k - 1], interval, actions[k - 1]);
    }
  }

  /**
   * In every run, whatever the jobs and crashes: a match is sent at most once more than the journal
   * admits, it is only marked as notified after a send that was accepted, and the attempts of a
   * process to one chat keep the interval.
   */
  lemma SendsAreAccountedFor(interval: int, states: seq<State>, actions: seq<Action>, k: nat, id: MatchId)
    requires IsRun(interval, states, actions) && k < |states| && interval >= 0
    ensures CountSends(states[k].sends, id) <= 1 + CountResent(states[k].journal, id)
    ensures id in states[k].matches && states[k].matches[id].notifiedAt.Some? ==> Sent(id, true) in states[k].sends
    ensures Paced(states[k], interval)
  {
    RunKeepsInv(interval, states, actions, k);
    assert Bounded(states[k], id) && Honest(states[k], id);
  }

  /** A match that is notified, or was deleted after that, with no job that could still send it. */
  ghost predicate Closed(s: State, id: MatchId) {
    && id < s.nextMatch
    && (id in s.matches ==> s.matches[id].notifiedAt.Some?)
    && (s.stage.Some? && s.stage.value.job.matchId == id ==> s.stage.value.Received?)
  }

  lemma ClosedStays(s: State, interval: int, action: Action, id: MatchId)
    requires Closed(s, id)
    ensures Closed(Next(s, interval, action), id)
    ensures CountSends(Next(s, interval, action).sends, id) == CountSends(s.sends, id)
  {
    CountAll(s, id);
    hide CountSends;
  }

  lemma {:induction false} ClosedForGood(interval: int, states: seq<State>, actions: seq<Action>, k: nat, l: nat, id: MatchId)
    requires IsRun(interval, states, actions) && k <= l < |states| && Closed(states[k], id)
    ensures Closed(states[l], id) && CountSends(states[l].sends, id) == CountSends(states[k].sends, id)
  {
    if k < l {
      ClosedForGood(interval, states, actions, k, l - 1, id);
      ClosedStays(states[l - 1], interval, actions[l - 1], id);
    }
  }

  /** A match once seen with `notifiedAt` set is never sent again. */
  lemma NotifiedIsNeverSentAgain(interval: int, states: seq<State>, actions: seq<Action>, k: nat, l: nat, id: MatchId)
    requires IsRun(interval, states, actions) && k <= l < |states| && interval >= 0
    requires id in states[k].matches && states[k].matches[id].notifiedAt.Some?
    ensures CountSends(states[l].sends, id) == CountSends(states[k].sends, id)
    ensures id in states[l].matches ==> states[l].matches[id].notifiedAt.Some?
  {
    RunKeepsInv(interval, states, actions, k);
    ClosedForGood(interval, states, actions, k, l, id);
  }

  /**
   * In every run, when the source accepts a message and the write behind it succeeds, the match is
   * notified, its sending mark is gone, and no later job sends it again.
   */
  lemma DeliveredForGood(interval: int, states: seq<State>, actions: seq<Action>, k: nat, l: nat, job: Payload,
                         sentAt: int, notifiedAt: int, written: bool, outcome: SendOutcome)
    requires IsRun(interval, states, actions) && k + 2 <= l < |states| && interval >= 0
    requires states[k].stage == Some(Marked(job))
    requires actions[k] == Advance(sentAt, written, Delivered) && states[k].clock <= sentAt
    requires actions[k + 1] == Advance(notifiedAt, true, outcome) && sentAt <= notifiedAt
    ensures var id := job.matchId;
      && states[k + 2].sends == states[k].sends + [Sent(id, true)]
      && states[k + 2].stage.None?
      && (id in states[k].matches ==>
            id in states[k + 2].matches && states[k + 2].matches[id].notifiedAt == Some(notifiedAt)
            && states[k + 2].matches[id].sendingAt.None?)
      && (id in states[l].matches ==> states[l].matches[id].notifiedAt.Some?)
      && CountSends(states[l].sends, id) == CountSends(states[k].sends, id) + 1
  {
    RunKeepsInv(interval, states, actions, k);
    assert states[k + 1] == Next(states[k], interval, actions[k]);
    assert states[k + 2] == Next(states[k + 1], interval, actions[k + 1]);
    CountAll(states[k], job.matchId);
    assert Unnotified(states[k]) && KnownIds(states[k]);
    hide CountSends, CountResent, Inv;
    ClosedForGood(interval, states, actions, k + 2, l, job.matchId);
  }
}

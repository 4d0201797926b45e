/**
 * The lifecycle of the bot's polling transport. Every `await` splits a call into steps; between two
 * steps any other call, timer or late rejection may run. Generations tell a step whether its call is
 * still the latest one.
 */
module TelegramTransport {
  import opened Basics

  type Token = string
  type TransportId = nat
  type CallId = nat

  /** The generation and token a call, timer or transport was made for. */
  datatype Lease = Lease(generation: nat, token: Token)

  /** Where a suspended call continues; `awaits` is the transport whose `stop()` it waits for. */
  datatype Continuation =
    | ConfigureAfterStop(generation: nat, token: Option<Token>, awaits: Option<TransportId>)
    | ConfigureAfterBinding(generation: nat, token: Option<Token>)
    | RestartAfterStop(generation: nat, token: Option<Token>, awaits: Option<TransportId>)
    | StopAfterStop(generation: nat, token: Option<Token>, awaits: Option<TransportId>)

  /** How creating and starting a transport goes. */
  datatype StartOutcome = CreateThrows | StartThrows | Polls

  /**
   * The closure's variables; then what the outside world knows: the suspended calls, whose polling
   * promise is still pending, what each transport was made for, and which transports are live, that
   * is polling and not told to stop.
   */
  datatype State = State(
    generation: nat,
    activeToken: Option<Token>,
    transport: Option<TransportId>,
    reconnectTimer: Option<Lease>,
    suspended: map<CallId, Continuation>,
    polling: set<TransportId>,
    madeFor: map<TransportId, Lease>,
    live: set<TransportId>,
    nextTransport: TransportId)

  // ----- specification of the steps

  predicate IsCurrent(s: State, lease: Lease) {
    lease.generation == s.generation && s.activeToken == Some(lease.token)
  }

  /** The synchronous part of `stopTransport`. */
  function Detach(s: State): State {
    if s.transport.None? then s
    else s.(transport := None, live := s.live - {s.transport.value})
  }

  function ScheduleReconnect(s: State, lease: Lease): State {
    if IsCurrent(s, lease) then s.(reconnectTimer := Some(lease)) else s
  }

  function StartTransport(s: State, lease: Lease, outcome: StartOutcome): State {
    if !IsCurrent(s, lease) then s else
      match outcome
      case CreateThrows => s.(transport := None)
      case StartThrows =>
        ScheduleReconnect(
          s.(transport := None, madeFor := s.madeFor[s.nextTransport := lease], nextTransport := s.nextTransport + 1),
          lease)
      case Polls =>
        s.(transport := Some(s.nextTransport), madeFor := s.madeFor[s.nextTransport := lease],
           polling := s.polling + {s.nextTransport}, live := s.live + {s.nextTransport},
           nextTransport := s.nextTransport + 1)
  }

  /** A new generation: the pending reconnect is cancelled and the transport told to stop. */
  function NewGeneration(s: State, token: Option<Token>): State {
    Detach(s.(generation := s.generation + 1, activeToken := token, reconnectTimer := None))
  }

  function Configured(s: State, call: CallId, token: Option<Token>): State {
    var next := NewGeneration(s, token);
    next.(suspended := next.suspended[call := ConfigureAfterStop(next.generation, token, s.transport)])
  }

  function Resumed(s: State, call: CallId): State {
    if s.activeToken.None? then s else
      var next := NewGeneration(s, s.activeToken);
      next.(suspended := next.suspended[call := RestartAfterStop(next.generation, s.activeToken, s.transport)])
  }

  function Stopped(s: State, call: CallId): State {
    var next := NewGeneration(s, None);
    next.(suspended := next.suspended[call := StopAfterStop(next.generation, None, s.transport)])
  }

  /** A suspended call goes on; `settled` is false when the promise it waited for was rejected. */
  function Continued(s: State, call: CallId, settled: bool, outcome: StartOutcome): State {
    if call !in s.suspended then s else
      var at := s.suspended[call];
      var next := s.(suspended := s.suspended - {call});
      if !settled || at.generation != s.generation || at.token != s.activeToken || at.token.None? then next else
        match at
        case ConfigureAfterStop(generation, token, _) =>
          next.(suspended := next.suspended[call := ConfigureAfterBinding(generation, token)])
        case ConfigureAfterBinding(generation, token) =>
          StartTransport(next, Lease(generation, token.value), outcome)
        case RestartAfterStop(generation, token, _) =>
          StartTransport(next, Lease(generation, token.value), outcome)
        case StopAfterStop(_, _, _) => next
  }

  function TimerFired(s: State, outcome: StartOutcome): State {
    if s.reconnectTimer.None? then s
    else StartTransport(s.(reconnectTimer := None), s.reconnectTimer.value, outcome)
  }

  function PollingRejected(s: State, id: TransportId): State {
    if id !in s.polling || id !in s.madeFor then s else
      var next := s.(polling := s.polling - {id}, live := s.live - {id});
      if !IsCurrent(s, s.madeFor[id]) || s.transport != Some(id) then next
      else ScheduleReconnect(next.(transport := None), s.madeFor[id])
  }

  /** Nothing in the service waits for a polling promise that is fulfilled. */
  function PollingEnded(s: State, id: TransportId): State {
    s.(polling := s.polling - {id}, live := s.live - {id})
  }

  // ----- the service

  class TelegramBotService {
    var lifecycleGeneration: nat
    var activeToken: Option<Token>
    var transport: Option<TransportId>
    var reconnectTimer: Option<Lease>
    var suspended: map<CallId, Continuation>
    var polling: set<TransportId>
    var madeFor: map<TransportId, Lease>
    var live: set<TransportId>
    var nextTransport: TransportId

    function Current(): State
      reads this
    {
      State(lifecycleGeneration, activeToken, transport, reconnectTimer, suspended, polling, madeFor, live, nextTransport)
    }

    constructor ()
      ensures Current() == INITIAL
    {
      lifecycleGeneration, activeToken, transport, reconnectTimer := 0, None, None, None;
      suspended, polling, madeFor, live, nextTransport := map[], {}, map[], {}, 0;
    }

    /** Tells the transport to stop; the promise of its `stop()` is what the caller awaits. */
    method StopTransport() returns (current: Option<TransportId>)
      modifies this`transport, this`live
      ensures Current() == Detach(old(Current())) && current == old(transport)
    {
      current := transport;
      transport := None;
      if current.Some? {
        live := live - {current.value};
      }
    }

    method ArmReconnect(lease: Lease)
      modifies this`reconnectTimer
      ensures Current() == ScheduleReconnect(old(Current()), lease)
    {
      if lease.generation != lifecycleGeneration || activeToken != Some(lease.token) {
        return;
      }
      reconnectTimer := None;
      reconnectTimer := Some(lease);
    }

    method Start(lease: Lease, outcome: StartOutcome)
      modifies this
      ensures Current() == StartTransport(old(Current()), lease, outcome)
    {
      if lease.generation != lifecycleGeneration || activeToken != Some(lease.token) {
        return;
      }
      if outcome == CreateThrows {
        transport := None;
        return;
      }
      var next := nextTransport;
      nextTransport := nextTransport + 1;
      madeFor := madeFor[next := lease];
      transport := Some(next);
      if outcome == StartThrows {
        if transport == Some(next) {
          transport := None;
        }
        ArmReconnect(lease);
        return;
      }
      polling := polling + {next};
      live := live + {next};
    }

    method Configure(call: CallId, token: Option<Token>)
      modifies this
      ensures Current() == Configured(old(Current()), call, token)
    {
      lifecycleGeneration := lifecycleGeneration + 1;
      var generation := lifecycleGeneration;
      reconnectTimer := None;
      activeToken := token;
      var stopping := StopTransport();
      suspended := suspended[call := ConfigureAfterStop(generation, token, stopping)];
    }

    method Resume(call: CallId)
      modifies this
      ensures Current() == Resumed(old(Current()), call)
    {
      var token := activeToken;
      if token.None? {
        return;
      }
      lifecycleGeneration := lifecycleGeneration + 1;
      var generation := lifecycleGeneration;
      reconnectTimer := None;
      var stopping := StopTransport();
      suspended := suspended[call := RestartAfterStop(generation, token, stopping)];
    }

    method Stop(call: CallId)
      modifies this
      ensures Current() == Stopped(old(Current()), call)
    {
      lifecycleGeneration := lifecycleGeneration + 1;
      activeToken := None;
      reconnectTimer := None;
      var stopping := StopTransport();
      suspended := suspended[call := StopAfterStop(lifecycleGeneration, None, stopping)];
    }

    method Continue(call: CallId, settled: bool, outcome: StartOutcome)
      modifies this
      ensures Current() == Continued(old(Current()), call, settled, outcome)
    {
      if call !in suspended {
        return;
      }
      var at := suspended[call];
      suspended := suspended - {call};
      if !settled || at.generation != lifecycleGeneration || at.token != activeToken || at.token.None? {
        return;
      }
      if at.ConfigureAfterStop? {
        suspended := suspended[call := ConfigureAfterBinding(at.generation, at.token)];
      } else if at.ConfigureAfterBinding? || at.RestartAfterStop? {
        Start(Lease(at.generation, at.token.value), outcome);
      }
    }

    method FireTimer(outcome: StartOutcome)
      modifies this
      ensures Current() == TimerFired(old(Current()), outcome)
    {
      if reconnectTimer.None? {
        return;
      }
      var lease := reconnectTimer.value;
      reconnectTimer := None;
      Start(lease, outcome);
    }

    method RejectPolling(id: TransportId)
      modifies this
      ensures Current() == PollingRejected(old(Current()), id)
    {
      if id !in polling || id !in madeFor {
        return;
      }
      polling, live := polling - {id}, live - {id};
      var lease := madeFor[id];
      if lease.generation != lifecycleGeneration || activeToken != Some(lease.token) || transport != Some(id) {
        return;
      }
      transport := None;
      ArmReconnect(lease);
    }
  }

  // ----- every interleaving

  const INITIAL := State(0, None, None, None, map[], {}, map[], {}, 0)

  datatype Event =
    | Configure(call: CallId, token: Option<Token>)
    | Resume(call: CallId)
    | Stop(call: CallId)
    | Continue(call: CallId, settled: bool, outcome: StartOutcome)
    | TimerFires(outcome: StartOutcome)
    | PollingRejects(id: TransportId)
    | PollingEnds(id: TransportId)

  /** One step; a call identifier names one call only. */
  function Step(s: State, e: Event): State {
    match e
    case Configure(call, token) => if call in s.suspended then s else Configured(s, call, token)
    case Resume(call) => if call in s.suspended then s else Resumed(s, call)
    case Stop(call) => if call in s.suspended then s else Stopped(s, call)
    case Continue(call, settled, outcome) => Continued(s, call, settled, outcome)
    case TimerFires(outcome) => TimerFired(s, outcome)
    case PollingRejects(id) => PollingRejected(s, id)
    case PollingEnds(id) => PollingEnded(s, id)
  }

  function Run(s: State, events: seq<Event>): State {
    if events == [] then s else Step(Run(s, events[..|events| - 1]), events[|events| - 1])
  }

  /** The call would still act when it continues. */
  predicate Pending(s: State, call: CallId) {
    call in s.suspended && s.suspended[call].generation == s.generation
  }

  /**
   * Of a transport, an armed timer and a suspended call of the current generation there is at most
   * one; nothing suspended belongs to a later generation; nothing live is forgotten.
   */
  ghost predicate Inv(s: State) {
    && (forall id | id in s.live :: s.transport == Some(id))
    && (s.transport.Some? ==>
          && s.transport.value in s.madeFor && IsCurrent(s, s.madeFor[s.transport.value])
          && s.reconnectTimer.None?)
    && (s.reconnectTimer.Some? ==> IsCurrent(s, s.reconnectTimer.value))
    && (forall call | call in s.suspended :: s.suspended[call].generation <= s.generation)
    && (forall call | Pending(s, call) ::
          s.suspended[call].token == s.activeToken && s.transport.None? && s.reconnectTimer.None?)
    && (forall a, b | Pending(s, a) && Pending(s, b) :: a == b)
  }

  lemma StepKeepsInv(s: State, e: Event)
    requires Inv(s)
    ensures Inv(Step(s, e))
  {
    match e {
      case Configure(call, token) =>
        if call !in s.suspended { FreshGeneration(s, Step(s, e), call); }
      case Resume(call) =>
        if call !in s.suspended && s.activeToken.Some? { FreshGeneration(s, Step(s, e), call); }
      case Stop(call) =>
        if call !in s.suspended { FreshGeneration(s, Step(s, e), call); }
      case Continue(call, settled, outcome) =>
        ContinueKeepsInv(s, call, settled, outcome);
      case _ =>
        forall k | Pending(Step(s, e), k) ensures Pending(s, k) {}
    }
  }

  lemma FreshGeneration(s: State, next: State, call: CallId)
    requires Inv(s) && call !in s.suspended
    requires next.generation == s.generation + 1
    requires next.transport.None? && next.reconnectTimer.None?
    requires next.live == (if s.transport.None? then s.live else s.live - {s.transport.value})
    requires next.suspended.Keys == s.suspended.Keys + {call}
    requires forall k | k in s.suspended :: next.suspended[k] == s.suspended[k]
    requires next.suspended[call].generation == next.generation && next.suspended[call].token == next.activeToken
    ensures Inv(next)
  {
    forall k | Pending(next, k) ensures k == call {}
  }

  lemma ContinueKeepsInv(s: State, call: CallId, settled: bool, outcome: StartOutcome)
    requires Inv(s)
    ensures Inv(Continued(s, call, settled, outcome))
  {
    if call in s.suspended {
      var next := Continued(s, call, settled, outcome);
      assert Pending(s, call) ==> s.transport.None? && s.live == {};
      forall k | Pending(next, k) ensures Pending(s, k) {}
    }
  }

  /**
   * In every interleaving at most one transport is live, and a live transport was made for the
   * current generation and the current token.
   */
  lemma {:induction false} AtMostOneLive(events: seq<Event>)
    ensures Inv(Run(INITIAL, events))
    ensures var s := Run(INITIAL, events);
      && (forall a, b | a in s.live && b in s.live :: a == b)
      && forall id | id in s.live :: id in s.madeFor && IsCurrent(s, s.madeFor[id])
  {
    if events != [] {
      AtMostOneLive(events[..|events| - 1]);
      StepKeepsInv(Run(INITIAL, events[..|events| - 1]), events[|events| - 1]);
    }
  }

  /** After `stop` or `configure(null)` nothing that was pending starts a transport until a token is configured. */
  lemma {:induction false} SilentWithoutToken(events: seq<Event>, silence: Event, later: seq<Event>)
    requires silence.Stop? || (silence.Configure? && silence.token.None?)
    requires silence.call !in Run(INITIAL, events).suspended
    requires forall e | e in later :: !(e.Configure? && e.token.Some?)
    ensures Silent(Run(INITIAL, events + [silence] + later))
    decreases |later|
  {
    hide Step, Inv;
    var all := events + [silence] + later;
    if later == [] {
      assert all[..|all| - 1] == events && all[|all| - 1] == silence;
      AtMostOneLive(events);
      Silenced(Run(INITIAL, events), silence);
    } else {
      var before := later[..|later| - 1];
      assert later == before + [later[|later| - 1]];
      SilentWithoutToken(events, silence, before);
      assert all[..|all| - 1] == events + [silence] + before;
      assert all[|all| - 1] == later[|later| - 1] && all[|all| - 1] in later;
      StaysSilent(Run(INITIAL, events + [silence] + before), all[|all| - 1]);
    }
  }

  predicate Silent(s: State) {
    s.activeToken.None? && s.live == {} && s.transport.None? && s.reconnectTimer.None?
  }

  lemma Silenced(s: State, e: Event)
    requires Inv(s) && (e.Stop? || (e.Configure? && e.token.None?)) && e.call !in s.suspended
    ensures Silent(Step(s, e))
  {
  }

  lemma StaysSilent(s: State, e: Event)
    requires Silent(s) && !(e.Configure? && e.token.Some?)
    ensures Silent(Step(s, e))
  {
  }

  /**
   * A step that starts a transport finds none running: only the latest configuration, the latest
   * resume or the armed timer starts one, and only while its own token is the active one.
   */
  lemma StartsFromNothing(events: seq<Event>, e: Event)
    ensures var s := Run(INITIAL, events);
      var next := Step(s, e);
      next.live - s.live != {} ==>
        && s.live == {} && s.transport.None?
        && ((e.Continue? && Pending(s, e.call)) || (e.TimerFires? && s.reconnectTimer.Some?))
        && next.activeToken == s.activeToken && next.generation == s.generation
  {
    AtMostOneLive(events);
  }

  // ----- transports that are still stopping

  predicate Awaits(s: State, call: CallId, id: TransportId) {
    call in s.suspended && !s.suspended[call].ConfigureAfterBinding? && s.suspended[call].awaits == Some(id)
  }

  /** Told to stop by a call that still waits for it. */
  ghost predicate Stopping(s: State, id: TransportId) { exists call: CallId :: Awaits(s, call, id) }

  ghost predicate StopInv(s: State) {
    && (s.transport.Some? ==> s.transport.value < s.nextTransport)
    && (forall id | id in s.live :: id < s.nextTransport)
    && forall call: CallId, id: TransportId | Awaits(s, call, id) :: id < s.nextTransport && id !in s.live
  }

  lemma StepKeepsStopInv(s: State, e: Event)
    requires Inv(s) && StopInv(s)
    ensures StopInv(Step(s, e))
  {
    var next := Step(s, e);
    forall call: CallId, id: TransportId | Awaits(next, call, id) ensures id < next.nextTransport && id !in next.live {
      if Awaits(s, call, id) {
        assert id < s.nextTransport && id !in s.live;
      } else {
        assert s.transport == Some(id);
        assert id !in next.live;
      }
    }
  }

  lemma {:induction false} StopInvHolds(events: seq<Event>)
    ensures Inv(Run(INITIAL, events)) && StopInv(Run(INITIAL, events))
  {
    AtMostOneLive(events);
    if events != [] {
      StopInvHolds(events[..|events| - 1]);
      StepKeepsStopInv(Run(INITIAL, events[..|events| - 1]), events[|events| - 1]);
    }
  }

  /** The call an event continues, if any. */
  predicate Continues(e: Event, call: CallId) { e.Continue? && e.call == call }

  /**
   * A started transport may meet another one that is still stopping, never one that is live: those
   * still stopping are exactly the ones that other, superseded calls wait for.
   */
  lemma StillStoppingAtStart(events: seq<Event>, e: Event, id: TransportId)
    requires var s := Run(INITIAL, events); Step(s, e).live - s.live != {}
    ensures var s := Run(INITIAL, events);
      var next := Step(s, e);
      && (Stopping(next, id) ==> id !in next.live)
      && (Stopping(next, id) <==>
            exists call: CallId :: Awaits(s, call, id) && !Continues(e, call) && s.suspended[call].generation < s.generation)
  {
    StopInvHolds(events);
    var s := Run(INITIAL, events);
    var next := Step(s, e);
    StepKeepsStopInv(s, e);
    StartsFromNothing(events, e);
    forall call: CallId | Awaits(next, call, id) ensures Awaits(s, call, id) && !Continues(e, call) && s.suspended[call].generation < s.generation {
      assert !Pending(s, call) || Continues(e, call);
    }
    forall call: CallId | Awaits(s, call, id) && !Continues(e, call) ensures Awaits(next, call, id) {}
  }

  /** Calls come one after another: none begins while another is suspended. */
  predicate OneAfterAnother(events: seq<Event>) {
    events == []
    || (OneAfterAnother(events[..|events| - 1])
        && var e := events[|events| - 1];
        (e.Configure? || e.Resume? || e.Stop? ==> Run(INITIAL, events[..|events| - 1]).suspended == map[]))
  }

  predicate AllCurrent(s: State) { forall call | call in s.suspended :: s.suspended[call].generation == s.generation }

  lemma CurrentStep(s: State, e: Event)
    requires AllCurrent(s) && (e.Configure? || e.Resume? || e.Stop? ==> s.suspended == map[])
    ensures AllCurrent(Step(s, e))
  {
    match e {
      case Configure(call, token) => assert forall k | k in Step(s, e).suspended :: k == call;
      case Resume(call) => assert s.activeToken.Some? ==> forall k | k in Step(s, e).suspended :: k == call;
      case Stop(call) => assert forall k | k in Step(s, e).suspended :: k == call;
      case Continue(call, settled, outcome) =>
      case _ => assert Step(s, e).suspended == s.suspended && Step(s, e).generation == s.generation;
    }
  }

  lemma {:induction false} NoneIsSuperseded(events: seq<Event>)
    requires OneAfterAnother(events)
    ensures AllCurrent(Run(INITIAL, events))
  {
    if events != [] {
      NoneIsSuperseded(events[..|events| - 1]);
      CurrentStep(Run(INITIAL, events[..|events| - 1]), events[|events| - 1]);
    }
  }

  /** Then no transport starts while another is stopping. */
  lemma SequentialCallsStartClean(events: seq<Event>, e: Event)
    requires OneAfterAnother(events)
    requires var s := Run(INITIAL, events); Step(s, e).live - s.live != {}
    ensures forall id: TransportId :: !Stopping(Step(Run(INITIAL, events), e), id)
  {
    NoneIsSuperseded(events);
    forall id: TransportId ensures !Stopping(Step(Run(INITIAL, events), e), id) {
      StillStoppingAtStart(events, e, id);
    }
  }

  /** Two overlapping calls of configure: the second starts its transport while the first one's is stopping. */
  lemma OverlapForExample(a: Token, b: Token, c: Token)
    ensures var events := [Event.Configure(0, Some(a)), Event.Continue(0, true, Polls), Event.Continue(0, true, Polls),
                           Event.Configure(1, Some(b)), Event.Configure(2, Some(c)),
                           Event.Continue(2, true, Polls), Event.Continue(2, true, Polls)];
      var s := Run(INITIAL, events);
      s.live == {1} && Stopping(s, 0)
  {
    var e1 := [Event.Configure(0, Some(a))];
    var e2 := e1 + [Event.Continue(0, true, Polls)];
    var e3 := e2 + [Event.Continue(0, true, Polls)];
    var e4 := e3 + [Event.Configure(1, Some(b))];
    var e5 := e4 + [Event.Configure(2, Some(c))];
    var e6 := e5 + [Event.Continue(2, true, Polls)];
    var e7 := e6 + [Event.Continue(2, true, Polls)];
    RunMore([], Event.Configure(0, Some(a)));
    assert [] + e1 == e1;
    RunMore(e1, Event.Continue(0, true, Polls));
    RunMore(e2, Event.Continue(0, true, Polls));
    var s3 := Run(INITIAL, e3);
    assert s3.transport == Some(0) && s3.live == {0} && s3.suspended == map[] && s3.generation == 1 && s3.nextTransport == 1;
    RunMore(e3, Event.Configure(1, Some(b)));
    RunMore(e4, Event.Configure(2, Some(c)));
    var s5 := Run(INITIAL, e5);
    assert s5.suspended == map[1 := ConfigureAfterStop(2, Some(b), Some(0)), 2 := ConfigureAfterStop(3, Some(c), None)];
    assert s5.generation == 3 && s5.activeToken == Some(c) && s5.live == {} && s5.nextTransport == 1;
    RunMore(e5, Event.Continue(2, true, Polls));
    RunMore(e6, Event.Continue(2, true, Polls));
    assert e7 == [Event.Configure(0, Some(a)), Event.Continue(0, true, Polls), Event.Continue(0, true, Polls),
                  Event.Configure(1, Some(b)), Event.Configure(2, Some(c)),
                  Event.Continue(2, true, Polls), Event.Continue(2, true, Polls)];
    assert Awaits(Run(INITIAL, e7), 1, 0);
  }

  lemma RunMore(events: seq<Event>, e: Event)
    ensures Run(INITIAL, events + [e]) == Step(Run(INITIAL, events), e)
  {
    assert (events + [e])[..|events|] == events;
  }

  // ----- the service comes back

  /** The generation and token in force. */
  ghost function Latest(s: State): Lease
    requires s.activeToken.Some?
  {
    Lease(s.generation, s.activeToken.value)
  }

  ghost predicate KnownTransports(s: State) {
    && (forall id | id in s.madeFor :: id < s.nextTransport)
    && s.polling <= s.madeFor.Keys && s.live <= s.polling
  }

  lemma StepKeepsKnown(s: State, e: Event)
    requires KnownTransports(s) && Inv(s)
    ensures KnownTransports(Step(s, e))
  {
    assert forall call | Pending(s, call) :: s.transport.None? && s.live == {};
    assert s.reconnectTimer.Some? ==> s.transport.None?;
    hide Inv, Pending;
  }

  lemma {:induction false} TransportsAreKnown(events: seq<Event>)
    ensures Inv(Run(INITIAL, events)) && KnownTransports(Run(INITIAL, events))
  {
    AtMostOneLive(events);
    if events != [] {
      TransportsAreKnown(events[..|events| - 1]);
      hide Step, Inv, KnownTransports;
      StepKeepsKnown(Run(INITIAL, events[..|events| - 1]), events[|events| - 1]);
    }
  }

  /** One transport is live, and it was made for this lease. */
  ghost predicate OneLive(s: State, lease: Lease) {
    && s.activeToken.Some? && Latest(s) == lease && s.reconnectTimer.None?
    && s.transport.Some? && s.live == {s.transport.value}
    && s.transport.value in s.polling && s.transport.value in s.madeFor && s.madeFor[s.transport.value] == lease
  }

  /** Nothing is live, and the timer will start a transport for this lease. */
  ghost predicate WaitsToReconnect(s: State, lease: Lease) {
    && s.activeToken.Some? && Latest(s) == lease
    && s.transport.None? && s.live == {} && s.reconnectTimer == Some(lease)
  }

  /**
   * When the polling of the current transport is rejected the timer is armed for its lease; a rejection
   * that comes late, from a transport given up before, is only forgotten.
   */
  lemma RejectionRearms(events: seq<Event>, id: TransportId)
    requires id in Run(INITIAL, events).polling
    ensures var s := Run(INITIAL, events);
      var next := Step(s, PollingRejects(id));
      if s.transport == Some(id) then s.activeToken.Some? && WaitsToReconnect(next, Latest(s))
      else id !in s.live && next == s.(polling := s.polling - {id})
  {
    TransportsAreKnown(events);
  }

  /** The event starts a transport: the armed timer fires, or the latest call has nothing left to wait for. */
  ghost predicate IsStart(s: State, e: Event) {
    || (e.TimerFires? && s.reconnectTimer.Some?)
    || (e.Continue? && e.settled && Pending(s, e.call) && s.activeToken.Some?
        && (s.suspended[e.call].ConfigureAfterBinding? || s.suspended[e.call].RestartAfterStop?))
  }

  /** Nothing is live, and nothing will start by itself. */
  ghost predicate GivesUp(s: State, lease: Lease) {
    && s.activeToken.Some? && Latest(s) == lease
    && s.transport.None? && s.live == {} && s.reconnectTimer.None?
  }

  /**
   * A start in any reachable state makes a new transport live for the lease in force; one whose `start()`
   * throws leaves the timer armed for it; one that cannot be created leaves neither.
   */
  lemma StartOutcomes(events: seq<Event>, e: Event)
    requires IsStart(Run(INITIAL, events), e)
    ensures var s := Run(INITIAL, events);
      var next := Step(s, e);
      && s.activeToken.Some? && s.live == {}
      && (e.outcome == Polls ==> OneLive(next, Latest(s)) && next.transport.value !in s.madeFor)
      && (e.outcome == StartThrows ==> WaitsToReconnect(next, Latest(s)))
      && (e.outcome == CreateThrows ==> GivesUp(next, Latest(s)))
  {
    TransportsAreKnown(events);
  }

  /** A lost connection comes back: rejection, timer, and a transport for the same lease is live again. */
  lemma ConnectionComesBack(events: seq<Event>, id: TransportId)
    requires id in Run(INITIAL, events).polling && Run(INITIAL, events).transport == Some(id)
    ensures var s := Run(INITIAL, events);
      s.activeToken.Some? && OneLive(Run(INITIAL, events + [PollingRejects(id)] + [TimerFires(Polls)]), Latest(s))
  {
    RejectionRearms(events, id);
    RunMore(events, PollingRejects(id));
    StartOutcomes(events + [PollingRejects(id)], TimerFires(Polls));
    RunMore(events + [PollingRejects(id)], TimerFires(Polls));
  }

  /** From any reachable state `configure` ends with one live transport for its token, unless another call cuts in. */
  lemma ConfigureStarts(events: seq<Event>, call: CallId, token: Token, outcome: StartOutcome)
    requires call !in Run(INITIAL, events).suspended
    ensures var s := Run(INITIAL, events);
      var stopped := Run(INITIAL, events + [Event.Configure(call, Some(token))]);
      var next := Run(INITIAL, events + [Event.Configure(call, Some(token))] + [Event.Continue(call, true, outcome)]
                               + [Event.Continue(call, true, Polls)]);
      && stopped.live == {} && stopped.transport.None? && stopped.reconnectTimer.None?
      && OneLive(next, Lease(s.generation + 1, token))
  {
    var a, b, c := Event.Configure(call, Some(token)), Event.Continue(call, true, outcome), Event.Continue(call, true, Polls);
    TransportsAreKnown(events);
    RunMore(events, a);
    RunMore(events + [a], b);
    StartOutcomes(events + [a] + [b], c);
    RunMore(events + [a] + [b], c);
  }

  /** `resume` ends the same way with the token that is configured. */
  lemma ResumeStarts(events: seq<Event>, call: CallId)
    requires call !in Run(INITIAL, events).suspended && Run(INITIAL, events).activeToken.Some?
    ensures var s := Run(INITIAL, events);
      OneLive(Run(INITIAL, events + [Event.Resume(call)] + [Event.Continue(call, true, Polls)]),
              Lease(s.generation + 1, s.activeToken.value))
  {
    var a, b := Event.Resume(call), Event.Continue(call, true, Polls);
    TransportsAreKnown(events);
    RunMore(events, a);
    StartOutcomes(events + [a], b);
    RunMore(events + [a], b);
  }

  /** A transport, an armed timer, or a call that is about to start one. */
  ghost predicate Held(s: State) {
    || s.transport.Some? || s.reconnectTimer.Some?
    || exists call: CallId :: Pending(s, call) && !s.suspended[call].StopAfterStop?
  }

  /** A transport cannot be created, or the promise the latest call waits for is rejected. */
  ghost predicate LosesHold(s: State, e: Event) {
    || (IsStart(s, e) && e.outcome == CreateThrows)
    || (e.Continue? && Pending(s, e.call) && !e.settled)
  }

  lemma HoldStep(s: State, e: Event)
    requires Inv(s) && (s.activeToken.Some? ==> Held(s))
    ensures Step(s, e).activeToken.Some? ==> (Held(Step(s, e)) <==> !LosesHold(s, e))
  {
    var next := Step(s, e);
    if s.activeToken.Some? || e.Configure? {
      match e {
        case Configure(call, token) =>
          if call !in s.suspended { assert Pending(next, call); }
        case Resume(call) =>
          if call !in s.suspended { assert Pending(next, call); }
        case Continue(call, settled, outcome) =>
          HoldContinues(s, call, settled, outcome);
        case Stop(_) =>
        case _ =>
          forall k: CallId ensures Pending(next, k) <==> Pending(s, k) {}
      }
    }
  }

  lemma HoldContinues(s: State, call: CallId, settled: bool, outcome: StartOutcome)
    requires Inv(s) && s.activeToken.Some? && Held(s)
    ensures Held(Continued(s, call, settled, outcome)) <==> !LosesHold(s, Event.Continue(call, settled, outcome))
  {
    var next := Continued(s, call, settled, outcome);
    if Pending(s, call) {
      assert s.transport.None? && s.reconnectTimer.None?;
      if settled && s.suspended[call].ConfigureAfterStop? {
        assert Pending(next, call);
      }
      forall k: CallId | Pending(next, k) ensures k == call {
        if k != call {
          assert Pending(s, k);
        }
      }
    } else {
      forall k: CallId | Pending(s, k) ensures Pending(next, k) && next.suspended[k] == s.suspended[k] {}
    }
  }

  ghost predicate NeverLosesHold(events: seq<Event>) {
    forall k | 0 <= k < |events| :: !LosesHold(Run(INITIAL, events[..k]), events[k])
  }

  /**
   * In every interleaving, as long as a token is active there is a transport, an armed timer or a call about
   * to start one, unless a transport could not be created or a promise was rejected; and just then no longer.
   */
  lemma {:induction false} ActiveTokenIsHeld(events: seq<Event>, e: Event)
    requires NeverLosesHold(events)
    ensures var s := Run(INITIAL, events);
      && (s.activeToken.Some? ==> Held(s))
      && (Step(s, e).activeToken.Some? ==> (Held(Step(s, e)) <==> !LosesHold(s, e)))
  {
    AtMostOneLive(events);
    if events != [] {
      var front := events[..|events| - 1];
      forall k | 0 <= k < |front| ensures !LosesHold(Run(INITIAL, front[..k]), front[k]) {
        assert front[..k] == events[..k];
      }
      ActiveTokenIsHeld(front, events[|events| - 1]);
    }
    HoldStep(Run(INITIAL, events), e);
  }
}

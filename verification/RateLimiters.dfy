/**
 * The limiter in front of the source: operations run one after another, spaced by an interval plus
 * jitter, and not before the end of an imposed cooldown. Every job is chained behind the one
 * scheduled before it; timers and operations finish in any order the event loop likes.
 */
module RateLimiters {
  import opened Basics

  datatype Options = Options(minIntervalMs: int, jitterMinMs: int, jitterMaxMs: int)

  const KUFAR_RATE_LIMITER_DEFAULTS := Options(2000, 0, 3000)

  predicate ValidOptions(options: Options) {
    options.minIntervalMs >= 0 && options.jitterMinMs >= 0 && options.jitterMaxMs >= 0
    && options.jitterMaxMs >= options.jitterMinMs
  }

  /** `Delaying`: inside the waiting loop. `Settled`: its promise is fulfilled or rejected. */
  datatype Job = Queued | Delaying(cadenceStartAt: int) | Running | Settled(fulfilled: bool)

  /** What happened, oldest first; no code reads it. */
  datatype Entry = Started(job: nat, at: int) | CooldownUntil(end: int)

  datatype State = State(jobs: seq<Job>, lastStartedAt: Option<int>, cooldownUntil: int, log: seq<Entry>)

  const INITIAL := State([], None, 0, [])

  datatype Event =
    | Schedule
    | ImposeCooldown(delayMs: int, now: int)
    // the predecessor's promise has settled; `random` None stands for a value that is not finite
    | Begin(job: nat, random: Option<real>, now: int, startedAt: int)
    // a timer of the waiting loop fires, perhaps early
    | Wake(job: nat, now: int, startedAt: int)
    | Settle(job: nat, ok: bool)

  // ----- specification

  function Max(a: int, b: int): int { if a >= b then a else b }

  /** `sampleDelayMs`; None when the random source is out of range. */
  function SampleDelay(options: Options, random: Option<real>): Option<int> {
    if random.None? || random.value < 0.0 || random.value >= 1.0 then None
    else Some(options.minIntervalMs + options.jitterMinMs
              + (random.value * (options.jitterMaxMs - options.jitterMinMs + 1) as real).Floor)
  }

  /** Whether the event loop can deliver the event, with a clock that does not run backwards. */
  predicate Enabled(s: State, event: Event) {
    match event
    case Schedule => true
    case ImposeCooldown(_, _) => true
    case Begin(job, _, now, startedAt) =>
      job < |s.jobs| && s.jobs[job].Queued? && (job == 0 || s.jobs[job - 1].Settled?) && now <= startedAt
    case Wake(job, now, startedAt) => job < |s.jobs| && s.jobs[job].Delaying? && now <= startedAt
    case Settle(job, _) => job < |s.jobs| && s.jobs[job].Running?
  }

  /** One turn of the waiting loop. */
  function Turn(s: State, job: nat, cadenceStartAt: int, now: int, startedAt: int): State
    requires job < |s.jobs|
  {
    if now >= Max(cadenceStartAt, s.cooldownUntil)
    then s.(jobs := s.jobs[job := Running], lastStartedAt := Some(startedAt), log := s.log + [Started(job, startedAt)])
    else s.(jobs := s.jobs[job := Delaying(cadenceStartAt)])
  }

  function Next(options: Options, s: State, event: Event): State
    requires Enabled(s, event)
  {
    match event
    case Schedule => s.(jobs := s.jobs + [Queued])
    case ImposeCooldown(delayMs, now) =>
      if delayMs < 0 then s
      else s.(cooldownUntil := Max(s.cooldownUntil, now + delayMs), log := s.log + [CooldownUntil(now + delayMs)])
    case Begin(job, random, now, startedAt) =>
      if s.lastStartedAt.None? then Turn(s, job, 0, now, startedAt)
      else
        var delay := SampleDelay(options, random);
        if delay.None? then s.(jobs := s.jobs[job := Settled(false)])
        else Turn(s, job, s.lastStartedAt.value + delay.value, now, startedAt)
    case Wake(job, now, startedAt) => Turn(s, job, s.jobs[job].cadenceStartAt, now, startedAt)
    case Settle(job, ok) => s.(jobs := s.jobs[job := Settled(ok)])
  }

  // ----- the code

  class RateLimiter {
    const options: Options
    var jobs: seq<Job>
    var lastStartedAt: Option<int>
    var cooldownUntil: int
    ghost var log: seq<Entry>

    ghost function View(): State reads this { State(jobs, lastStartedAt, cooldownUntil, log) }

    constructor (options: Options)
      ensures this.options == options && View() == INITIAL
    {
      this.options := options;
      jobs, lastStartedAt, cooldownUntil, log := [], None, 0, [];
    }

    /** The job is chained behind `tail`, the job scheduled last. */
    method Schedule() returns (job: nat)
      modifies this
      ensures job == |old(jobs)| && View() == Next(options, old(View()), Event.Schedule)
    {
      job := |jobs|;
      jobs := jobs + [Queued];
    }

    method ImposeCooldown(delayMs: int, now: int) returns (accepted: bool)
      modifies this
      ensures accepted <==> delayMs >= 0
      ensures View() == Next(options, old(View()), Event.ImposeCooldown(delayMs, now))
    {
      if delayMs < 0 {
        return false;
      }
      cooldownUntil := Max(cooldownUntil, now + delayMs);
      log := log + [CooldownUntil(now + delayMs)];
      accepted := true;
    }

    /** The start of `run`, up to its first `await`. */
    method Begin(job: nat, random: Option<real>, now: int, startedAt: int)
      requires Enabled(View(), Event.Begin(job, random, now, startedAt))
      modifies this
      ensures View() == Next(options, old(View()), Event.Begin(job, random, now, startedAt))
    {
      var cadenceStartAt := 0;
      if lastStartedAt.Some? {
        var delay := SampleDelay(options, random);
        if delay.None? {
          jobs := jobs[job := Settled(false)];
          return;
        }
        cadenceStartAt := lastStartedAt.value + delay.value;
      }
      LoopTurn(job, cadenceStartAt, now, startedAt);
    }

    method Wake(job: nat, now: int, startedAt: int)
      requires Enabled(View(), Event.Wake(job, now, startedAt))
      modifies this
      ensures View() == Next(options, old(View()), Event.Wake(job, now, startedAt))
    {
      LoopTurn(job, jobs[job].cadenceStartAt, now, startedAt);
    }

    method LoopTurn(job: nat, cadenceStartAt: int, now: int, startedAt: int)
      requires job < |jobs|
      modifies this
      ensures View() == Turn(old(View()), job, cadenceStartAt, now, startedAt)
    {
      var earliestStartAt := Max(cadenceStartAt, cooldownUntil);
      var remainingMs := earliestStartAt - now;
      if remainingMs <= 0 {
        lastStartedAt := Some(startedAt);
        jobs := jobs[job := Running];
        log := log + [Started(job, startedAt)];
        return;
      }
      jobs := jobs[job := Delaying(cadenceStartAt)];
    }

    method Settle(job: nat, ok: bool)
      requires Enabled(View(), Event.Settle(job, ok))
      modifies this
      ensures View() == Next(options, old(View()), Event.Settle(job, ok))
    {
      jobs := jobs[job := Settled(ok)];
    }
  }

  /** The constructor's checks; a refusal is the source's `RangeError`. */
  method CreateRateLimiter(options: Options) returns (limiter: RateLimiter?)
    ensures limiter != null <==> ValidOptions(options)
    ensures limiter != null ==> fresh(limiter) && limiter.options == options && limiter.View() == INITIAL
  {
    if options.minIntervalMs < 0 || options.jitterMinMs < 0 || options.jitterMaxMs < 0
       || options.jitterMaxMs < options.jitterMinMs {
      return null;
    }
    limiter := new RateLimiter(options);
  }

  /** The limiter in front of Kufar: its delays lie between two and five seconds. */
  method KufarRateLimiter() returns (limiter: RateLimiter)
    ensures fresh(limiter) && limiter.View() == INITIAL && ValidOptions(limiter.options)
    ensures forall random | SampleDelay(limiter.options, random).Some? ::
      2000 <= SampleDelay(limiter.options, random).value <= 5000
  {
    var created := CreateRateLimiter(KUFAR_RATE_LIMITER_DEFAULTS);
    limiter := created;
    forall random | SampleDelay(limiter.options, random).Some?
      ensures 2000 <= SampleDelay(limiter.options, random).value <= 5000
    {
      DelayRange(limiter.options, random);
    }
  }

  // ----- the jitter

  /** A usable random value gives a delay inside the configured range. */
  lemma DelayRange(options: Options, random: Option<real>)
    requires ValidOptions(options)
    ensures SampleDelay(options, random).Some? <==> random.Some? && 0.0 <= random.value < 1.0
    ensures SampleDelay(options, random).Some? ==>
              options.minIntervalMs + options.jitterMinMs <= SampleDelay(options, random).value
              <= options.minIntervalMs + options.jitterMaxMs
  {
    if SampleDelay(options, random).Some? {
      FloorBelow(random.value, options.jitterMaxMs - options.jitterMinMs + 1);
    }
  }

  lemma FloorBelow(r: real, n: int)
    requires 0.0 <= r < 1.0 && n >= 1
    ensures 0 <= (r * n as real).Floor < n
  {
    assert r * n as real < n as real;
    assert r * n as real >= 0.0;
  }

  /** Every whole delay of the range is reached by some random value. */
  lemma DelayCoversRange(options: Options, delay: int) returns (random: real)
    requires ValidOptions(options)
    requires options.minIntervalMs + options.jitterMinMs <= delay <= options.minIntervalMs + options.jitterMaxMs
    ensures 0.0 <= random < 1.0 && SampleDelay(options, Some(random)) == Some(delay)
  {
    var n := options.jitterMaxMs - options.jitterMinMs + 1;
    random := ExactRatio(delay - options.minIntervalMs - options.jitterMinMs, n);
  }

  lemma ExactRatio(k: int, n: int) returns (r: real)
    requires 0 <= k < n
    ensures 0.0 <= r < 1.0 && (r * n as real).Floor == k
  {
    r := k as real / n as real;
    assert r * n as real == k as real;
    assert k as real < n as real;
    BelowOne(r, n);
  }

  lemma BelowOne(r: real, n: int)
    requires n >= 1 && r * n as real < n as real
    ensures r < 1.0
  {
  }

  // ----- every run

  /** The states of a run: each event is one the event loop can deliver. */
  ghost predicate IsRun(options: Options, states: seq<State>, events: seq<Event>) {
    && |states| == |events| + 1 && states[0] == INITIAL
    && forall k | 0 <= k < |events| :: Enabled(states[k], events[k]) && states[k + 1] == Next(options, states[k], events[k])
  }

  /** Operations start in the order they were scheduled. */
  ghost predicate InOrder(log: seq<Entry>) {
    forall a, b | 0 <= a < b < |log| && log[a].Started? && log[b].Started? :: log[a].job < log[b].job
  }

  /** Two starts are at least the interval and the smallest jitter apart. */
  ghost predicate Spaced(options: Options, log: seq<Entry>) {
    forall a, b | 0 <= a < b < |log| && log[a].Started? && log[b].Started? ::
      log[b].at >= log[a].at + options.minIntervalMs + options.jitterMinMs
  }

  /** No operation starts before the end of a cooldown imposed before it. */
  ghost predicate CooldownsRespected(log: seq<Entry>) {
    forall a, b | 0 <= a < b < |log| && log[a].CooldownUntil? && log[b].Started? :: log[b].at >= log[a].end
  }

  /** One at a time: whatever has left the queue has only settled jobs before it. */
  ghost predicate OneAtATime(s: State) {
    forall i, j | 0 <= i < j < |s.jobs| && !s.jobs[j].Queued? :: s.jobs[i].Settled?
  }

  ghost predicate Inv(options: Options, s: State) {
    && OneAtATime(s) && InOrder(s.log) && Spaced(options, s.log) && CooldownsRespected(s.log)
    && (forall a | 0 <= a < |s.log| && s.log[a].Started? ::
          && s.lastStartedAt.Some? && s.log[a].at <= s.lastStartedAt.value
          && s.log[a].job < |s.jobs| && (s.jobs[s.log[a].job].Running? || s.jobs[s.log[a].job].Settled?))
    && (forall a | 0 <= a < |s.log| && s.log[a].CooldownUntil? :: s.log[a].end <= s.cooldownUntil)
    && forall j | 0 <= j < |s.jobs| && s.jobs[j].Delaying? && s.lastStartedAt.Some? ::
         s.jobs[j].cadenceStartAt >= s.lastStartedAt.value + options.minIntervalMs + options.jitterMinMs
  }

  lemma AheadOf(s: State, other: nat, job: nat)
    requires OneAtATime(s) && other < |s.jobs| && job < |s.jobs|
    requires s.jobs[other].Running? || s.jobs[other].Settled?
    requires s.jobs[job].Queued? || s.jobs[job].Delaying?
    ensures other < job
  {
  }

  lemma TurnKeepsInv(options: Options, s: State, job: nat, cadenceStartAt: int, now: int, startedAt: int)
    requires ValidOptions(options) && Inv(options, s) && job < |s.jobs| && now <= startedAt
    requires s.jobs[job].Queued? || s.jobs[job].Delaying?
    requires forall i | 0 <= i < job :: s.jobs[i].Settled?
    requires s.lastStartedAt.Some? ==>
               cadenceStartAt >= s.lastStartedAt.value + options.minIntervalMs + options.jitterMinMs
    ensures Inv(options, Turn(s, job, cadenceStartAt, now, startedAt))
  {
    forall a | 0 <= a < |s.log| && s.log[a].Started? ensures s.log[a].job < job {
      AheadOf(s, s.log[a].job, job);
    }
    if now >= Max(cadenceStartAt, s.cooldownUntil) {
      StartKeepsLog(options, s, job, startedAt);
      StartKeepsJobs(options, s, job, startedAt);
    } else {
      DelayKeepsInv(options, s, job, cadenceStartAt);
    }
    hide OneAtATime, InOrder, Spaced, CooldownsRespected;
  }

  lemma StartKeepsLog(options: Options, s: State, job: nat, startedAt: int)
    requires ValidOptions(options) && Inv(options, s)
    requires forall a | 0 <= a < |s.log| && s.log[a].Started? :: s.log[a].job < job
    requires startedAt >= s.cooldownUntil
    requires s.lastStartedAt.Some? ==> startedAt >= s.lastStartedAt.value + options.minIntervalMs + options.jitterMinMs
    ensures var log := s.log + [Started(job, startedAt)]; InOrder(log) && Spaced(options, log) && CooldownsRespected(log)
  {
    hide OneAtATime;
  }

  lemma StartKeepsJobs(options: Options, s: State, job: nat, startedAt: int)
    requires ValidOptions(options) && Inv(options, s) && job < |s.jobs|
    requires s.jobs[job].Queued? || s.jobs[job].Delaying?
    requires forall i | 0 <= i < job :: s.jobs[i].Settled?
    ensures OneAtATime(s.(jobs := s.jobs[job := Running]))
    ensures forall j | 0 <= j < |s.jobs| && j != job :: !s.jobs[j].Delaying?
  {
    hide InOrder, Spaced, CooldownsRespected;
    forall j | job < j < |s.jobs| ensures s.jobs[j].Queued? {
      LaterIsQueued(s, job, j);
    }
  }

  lemma LaterIsQueued(s: State, job: nat, later: nat)
    requires OneAtATime(s) && job < later < |s.jobs| && !s.jobs[job].Settled?
    ensures s.jobs[later].Queued?
  {
  }

  lemma DelayKeepsInv(options: Options, s: State, job: nat, cadenceStartAt: int)
    requires Inv(options, s) && job < |s.jobs|
    requires s.jobs[job].Queued? || s.jobs[job].Delaying?
    requires forall i | 0 <= i < job :: s.jobs[i].Settled?
    requires s.lastStartedAt.Some? ==>
               cadenceStartAt >= s.lastStartedAt.value + options.minIntervalMs + options.jitterMinMs
    ensures Inv(options, s.(jobs := s.jobs[job := Delaying(cadenceStartAt)]))
  {
    hide InOrder, Spaced, CooldownsRespected;
  }

  lemma ScheduleKeepsInv(options: Options, s: State)
    requires Inv(options, s)
    ensures Inv(options, s.(jobs := s.jobs + [Queued]))
  {
  }

  lemma CooldownKeepsInv(options: Options, s: State, end: int)
    requires Inv(options, s)
    ensures Inv(options, s.(cooldownUntil := Max(s.cooldownUntil, end), log := s.log + [CooldownUntil(end)]))
  {
  }

  lemma SettleKeepsInv(options: Options, s: State, job: nat, ok: bool)
    requires Inv(options, s) && job < |s.jobs|
    requires forall i | 0 <= i < job :: s.jobs[i].Settled?
    ensures Inv(options, s.(jobs := s.jobs[job := Settled(ok)]))
  {
  }

  lemma InvFacts(options: Options, s: State)
    requires Inv(options, s)
    ensures OneAtATime(s)
    ensures forall j | 0 <= j < |s.jobs| && s.jobs[j].Delaying? && s.lastStartedAt.Some? ::
      s.jobs[j].cadenceStartAt >= s.lastStartedAt.value + options.minIntervalMs + options.jitterMinMs
  {
  }

  lemma ActiveHasSettledBefore(s: State, job: nat)
    requires OneAtATime(s) && job < |s.jobs| && !s.jobs[job].Queued?
    ensures forall i | 0 <= i < job :: s.jobs[i].Settled?
  {
  }

  lemma NextKeepsInv(options: Options, s: State, event: Event)
    requires ValidOptions(options) && Inv(options, s) && Enabled(s, event)
    ensures Inv(options, Next(options, s, event))
  {
    hide Inv, Turn, SampleDelay, OneAtATime;
    InvFacts(options, s);
    match event
    case Schedule =>
      ScheduleKeepsInv(options, s);
    case ImposeCooldown(delayMs, now) =>
      CooldownKeepsInv(options, s, now + delayMs);
    case Begin(job, random, now, startedAt) =>
      PredecessorSettled(s, job);
      DelayRange(options, random);
      if s.lastStartedAt.None? {
        TurnKeepsInv(options, s, job, 0, now, startedAt);
      } else if SampleDelay(options, random).Some? {
        TurnKeepsInv(options, s, job, s.lastStartedAt.value + SampleDelay(options, random).value, now, startedAt);
      } else {
        SettleKeepsInv(options, s, job, false);
      }
    case Wake(job, now, startedAt) =>
      ActiveHasSettledBefore(s, job);
      TurnKeepsInv(options, s, job, s.jobs[job].cadenceStartAt, now, startedAt);
    case Settle(job, ok) =>
      ActiveHasSettledBefore(s, job);
      SettleKeepsInv(options, s, job, ok);
  }

  lemma PredecessorSettled(s: State, job: nat)
    requires OneAtATime(s) && job < |s.jobs| && (job == 0 || s.jobs[job - 1].Settled?)
    ensures forall i | 0 <= i < job :: s.jobs[i].Settled?
  {
  }

  lemma {:induction false} RunKeepsInv(options: Options, states: seq<State>, events: seq<Event>, k: nat)
    requires ValidOptions(options) && IsRun(options, states, events) && k < |states|
    ensures Inv(options, states[k])
  {
    if k > 0 {
      RunKeepsInv(options, states, events, k - 1);
      NextKeepsInv(options, states[k - 1], events[k - 1]);
    }
  }

  /** The promises of the limiter, in every state of every run. */
  lemma EveryRunIsPaced(options: Options, states: seq<State>, events: seq<Event>, k: nat)
    requires ValidOptions(options) && IsRun(options, states, events) && k < |states|
    ensures OneAtATime(states[k]) && InOrder(states[k].log)
    ensures Spaced(options, states[k].log) && CooldownsRespected(states[k].log)
  {
    RunKeepsInv(options, states, events, k);
  }

  /** The first job whose promise is still open. */
  function FirstOpen(jobs: seq<Job>): (k: nat)
    ensures k <= |jobs|
    ensures forall i | 0 <= i < k :: jobs[i].Settled?
    ensures k < |jobs| ==> !jobs[k].Settled?
  {
    if jobs == [] || !jobs[0].Settled? then 0 else 1 + FirstOpen(jobs[1..])
  }

  /**
   * Nothing blocks the queue: as long as a promise is open the first open job can move, however the
   * jobs before it ended, and once its waiting is over a timer starts it.
   */
  lemma NeverBlocked(options: Options, states: seq<State>, events: seq<Event>, k: nat, random: Option<real>, now: int)
    requires ValidOptions(options) && IsRun(options, states, events) && k < |states|
    ensures var s := states[k]; var job := FirstOpen(s.jobs);
            job < |s.jobs| ==>
              && (s.jobs[job].Queued? ==>
                    var begin := Event.Begin(job, random, now, now);
                    && Enabled(s, begin) && !Next(options, s, begin).jobs[job].Queued?
                    && (Next(options, s, begin).jobs[job].Settled? <==>
                          s.lastStartedAt.Some? && SampleDelay(options, random).None?))
              && (s.jobs[job].Delaying? && now >= Max(s.jobs[job].cadenceStartAt, s.cooldownUntil) ==>
                    var wake := Event.Wake(job, now, now);
                    Enabled(s, wake) && Next(options, s, wake).jobs[job].Running?)
              && (s.jobs[job].Running? ==> forall ok :: Enabled(s, Event.Settle(job, ok)))
              && (forall i | job < i < |s.jobs| :: s.jobs[i].Queued?)
  {
    RunKeepsInv(options, states, events, k);
  }

  // ----- when operations start

  /** Event `k` starts the operation of `job`, at `at`. */
  ghost predicate StartsAt(states: seq<State>, events: seq<Event>, k: nat, job: nat, at: int)
    requires |states| == |events| + 1
  {
    && k < |events| && job < |states[k].jobs| && job < |states[k + 1].jobs|
    && !states[k].jobs[job].Running? && states[k + 1].jobs[job].Running?
    && (events[k].Begin? || events[k].Wake?) && events[k].job == job && events[k].startedAt == at
  }

  lemma {:induction false} LogGrows(options: Options, states: seq<State>, events: seq<Event>, k: nat, l: nat)
    requires IsRun(options, states, events) && k <= l < |states|
    ensures states[k].log <= states[l].log
  {
    if k < l {
      LogGrows(options, states, events, k, l - 1);
    }
  }

  lemma StartIsLogged(options: Options, states: seq<State>, events: seq<Event>, k: nat, job: nat, at: int)
    requires IsRun(options, states, events) && StartsAt(states, events, k, job, at)
    ensures states[k + 1].log == states[k].log + [Started(job, at)]
  {
    assert states[k + 1] == Next(options, states[k], events[k]);
    hide SampleDelay;
  }

  /** Two starts of a run, the earlier first: in scheduling order, and the interval and smallest jitter apart. */
  lemma StartsAreSpaced(options: Options, states: seq<State>, events: seq<Event>, k: nat, job: nat, at: int,
                        l: nat, later: nat, laterAt: int)
    requires ValidOptions(options) && IsRun(options, states, events) && k < l
    requires StartsAt(states, events, k, job, at) && StartsAt(states, events, l, later, laterAt)
    ensures job < later && laterAt >= at + options.minIntervalMs + options.jitterMinMs
  {
    hide StartsAt, Next, Enabled;
    StartIsLogged(options, states, events, k, job, at);
    StartIsLogged(options, states, events, l, later, laterAt);
    assert l + 1 < |states| by { assert StartsAt(states, events, l, later, laterAt); StartInside(states, events, l, later, laterAt); }
    LogGrows(options, states, events, k + 1, l);
    EveryRunIsPaced(options, states, events, l + 1);
    var log := states[l + 1].log;
    var a, b := |states[k].log|, |states[l].log|;
    assert log[a] == Started(job, at) && log[b] == Started(later, laterAt) && a < b;
  }

  lemma StartInside(states: seq<State>, events: seq<Event>, k: nat, job: nat, at: int)
    requires |states| == |events| + 1 && StartsAt(states, events, k, job, at)
    ensures k + 1 < |states|
  {
  }

  /** No operation starts before the end of a cooldown that was imposed before. */
  lemma CooldownHoldsStarts(options: Options, states: seq<State>, events: seq<Event>, k: nat, delayMs: int, now: int,
                            l: nat, job: nat, at: int)
    requires ValidOptions(options) && IsRun(options, states, events) && k < l && k < |events|
    requires events[k] == Event.ImposeCooldown(delayMs, now) && delayMs >= 0
    requires StartsAt(states, events, l, job, at)
    ensures at >= now + delayMs
  {
    assert states[k + 1].log == states[k].log + [CooldownUntil(now + delayMs)] by {
      assert states[k + 1] == Next(options, states[k], events[k]);
    }
    hide Next, Enabled;
    StartIsLogged(options, states, events, l, job, at);
    LogGrows(options, states, events, k + 1, l);
    EveryRunIsPaced(options, states, events, l + 1);
    var log := states[l + 1].log;
    var a, b := |states[k].log|, |states[l].log|;
    assert log[a] == CooldownUntil(now + delayMs) && log[b] == Started(job, at) && a < b;
  }

  // ----- no longer than needed

  /** A waiting job waits for no more than the interval and the largest jitter behind the last start. */
  ghost predicate Prompt(options: Options, s: State) {
    forall j | 0 <= j < |s.jobs| && s.jobs[j].Delaying? ::
      if s.lastStartedAt.None? then s.jobs[j].cadenceStartAt == 0
      else s.jobs[j].cadenceStartAt <= s.lastStartedAt.value + options.minIntervalMs + options.jitterMaxMs
  }

  lemma StartKeepsPrompt(options: Options, s: State, job: nat, at: int)
    requires ValidOptions(options) && Inv(options, s) && job < |s.jobs|
    requires s.jobs[job].Queued? || s.jobs[job].Delaying?
    requires forall i | 0 <= i < job :: s.jobs[i].Settled?
    ensures Prompt(options, s.(jobs := s.jobs[job := Running], lastStartedAt := Some(at),
                               log := s.log + [Started(job, at)]))
  {
    StartKeepsJobs(options, s, job, at);
  }

  lemma NextKeepsPrompt(options: Options, s: State, event: Event)
    requires ValidOptions(options) && Inv(options, s) && Prompt(options, s) && Enabled(s, event)
    ensures Prompt(options, Next(options, s, event))
  {
    InvFacts(options, s);
    hide Inv, SampleDelay, OneAtATime;
    match event
    case Begin(job, random, now, startedAt) =>
      PredecessorSettled(s, job);
      DelayRange(options, random);
      StartKeepsPrompt(options, s, job, startedAt);
    case Wake(job, now, startedAt) =>
      ActiveHasSettledBefore(s, job);
      StartKeepsPrompt(options, s, job, startedAt);
    case _ =>
  }

  /** Some cooldown of the run ends at `end`. */
  ghost predicate ImposedUntil(events: seq<Event>, end: int) {
    exists k | 0 <= k < |events| :: events[k].ImposeCooldown? && events[k].delayMs >= 0 && end == events[k].now + events[k].delayMs
  }

  lemma ImposedLater(events: seq<Event>, k: nat, end: int)
    requires k < |events| && ImposedUntil(events[..k], end)
    ensures ImposedUntil(events[..k + 1], end)
  {
    var before, now := events[..k], events[..k + 1];
    var i :| 0 <= i < |before| && before[i].ImposeCooldown? && before[i].delayMs >= 0 && end == before[i].now + before[i].delayMs;
    assert now[i] == before[i];
  }

  lemma CooldownIsImposed(options: Options, s: State, events: seq<Event>, k: nat)
    requires k < |events| && Enabled(s, events[k])
    requires s.cooldownUntil == 0 || ImposedUntil(events[..k], s.cooldownUntil)
    ensures var next := Next(options, s, events[k]);
      next.cooldownUntil == 0 || ImposedUntil(events[..k + 1], next.cooldownUntil)
  {
    hide SampleDelay;
    if s.cooldownUntil != 0 {
      ImposedLater(events, k, s.cooldownUntil);
    }
    assert events[..k + 1][k] == events[k];
  }

  lemma {:induction false} RunIsPrompt(options: Options, states: seq<State>, events: seq<Event>, k: nat)
    requires ValidOptions(options) && IsRun(options, states, events) && k < |states|
    ensures Prompt(options, states[k])
    ensures states[k].cooldownUntil == 0 || ImposedUntil(events[..k], states[k].cooldownUntil)
  {
    if k > 0 {
      hide Prompt, Next, Inv, ImposedUntil, Enabled;
      RunIsPrompt(options, states, events, k - 1);
      RunKeepsInv(options, states, events, k - 1);
      NextKeepsPrompt(options, states[k - 1], events[k - 1]);
      CooldownIsImposed(options, states[k - 1], events, k - 1);
    }
  }

  /**
   * Once the interval and the largest jitter have passed since the last start, and the cooldowns imposed so
   * far are over, the first open job starts as soon as the event loop gets to it.
   */
  lemma StartsWhenDue(options: Options, states: seq<State>, events: seq<Event>, k: nat, random: Option<real>, now: int)
    requires ValidOptions(options) && IsRun(options, states, events) && k < |states| && now >= 0
    requires random.Some? && 0.0 <= random.value < 1.0
    requires states[k].lastStartedAt.Some? ==> now >= states[k].lastStartedAt.value + options.minIntervalMs + options.jitterMaxMs
    requires forall end | ImposedUntil(events[..k], end) :: now >= end
    ensures var s := states[k]; var job := FirstOpen(s.jobs);
            job < |s.jobs| ==>
              var next := if s.jobs[job].Queued? then Event.Begin(job, random, now, now) else Event.Wake(job, now, now);
              s.jobs[job].Running? || (Enabled(s, next) && Next(options, s, next).jobs[job].Running?)
  {
    RunKeepsInv(options, states, events, k);
    RunIsPrompt(options, states, events, k);
    DelayRange(options, random);
    hide SampleDelay;
  }
}

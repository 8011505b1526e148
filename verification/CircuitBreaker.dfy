/** The circuit breaker in front of Redis. */
module CircuitBreakers {
  import opened MachineInts

  datatype CircuitState = Closed | Open | HalfOpen

  datatype Config = Config(failureThreshold: nat, successThreshold: nat, resetTimeoutMs: nat) {
    /** The timeout as it is compared, after the cast to a signed integer. */
    function Reset(): int { AsI64(resetTimeoutMs) }
  }

  datatype Breaker = Breaker(state: CircuitState, failures: nat, successes: nat, lastChange: int)

  function Start(now: int): Breaker {
    Breaker(Closed, 0, 0, now)
  }

  /** Asking for the state, which may half-open the breaker. */
  function Queried(cfg: Config, b: Breaker, now: int): Breaker {
    if b.state == Open && now - b.lastChange >= cfg.Reset() then Breaker(HalfOpen, b.failures, 0, now) else b
  }

  function Succeeded(cfg: Config, b: Breaker, now: int): Breaker {
    match b.state
    case Closed => b.(failures := 0)
    case HalfOpen =>
      if b.successes + 1 >= cfg.successThreshold then Breaker(Closed, 0, 0, now) else b.(successes := b.successes + 1)
    case Open => b
  }

  function Failed(cfg: Config, b: Breaker, now: int): Breaker {
    match b.state
    case Closed =>
      if b.failures + 1 >= cfg.failureThreshold then Breaker(Open, b.failures + 1, 0, now)
      else b.(failures := b.failures + 1)
    case HalfOpen => Breaker(Open, b.failures, 0, now)
    case Open => b.(lastChange := now)
  }

  class CircuitBreaker {
    const config: Config
    var state: CircuitState
    var failureCount: nat
    var successCount: nat
    var lastStateChange: int

    function View(): Breaker
      reads this
    {
      Breaker(state, failureCount, successCount, lastStateChange)
    }

    constructor (config: Config, now: int)
      ensures View() == Start(now) && this.config == config
    {
      this.config, state, failureCount, successCount, lastStateChange := config, Closed, 0, 0, now;
    }

    method AllowRequest(now: int) returns (allowed: bool)
      modifies this
      ensures View() == Queried(config, old(View()), now)
      ensures allowed <==> state != Open
    {
      if state == Open {
        var elapsed := now - lastStateChange;
        if elapsed >= config.Reset() {
          state := HalfOpen;
          successCount := 0;
          lastStateChange := now;
        }
      }
      allowed := match state case Closed => true case Open => false case HalfOpen => true;
    }

    method RecordSuccess(now: int)
      modifies this
      ensures View() == Succeeded(config, old(View()), now)
    {
      match state {
        case Closed =>
          failureCount := 0;
        case HalfOpen =>
          successCount := successCount + 1;
          if successCount >= config.successThreshold {
            TransitionTo(Closed, now);
          }
        case Open =>
      }
    }

    method RecordFailure(now: int)
      modifies this
      ensures View() == Failed(config, old(View()), now)
    {
      match state {
        case Closed =>
          failureCount := failureCount + 1;
          if failureCount >= config.failureThreshold {
            TransitionTo(Open, now);
          }
        case HalfOpen =>
          TransitionTo(Open, now);
        case Open =>
          lastStateChange := now;
      }
    }

    method TransitionTo(newState: CircuitState, now: int)
      modifies this
      ensures View() == Breaker(newState, if newState == Closed then 0 else old(failureCount), 0, now)
    {
      state := newState;
      lastStateChange := now;
      match newState {
        case Closed =>
          failureCount := 0;
          successCount := 0;
        case Open =>
          successCount := 0;
        case HalfOpen =>
          successCount := 0;
      }
    }
  }

  // ---- runs ----

  datatype Event = Query(now: int) | Success(now: int) | Failure(now: int)

  predicate Timed(events: seq<Event>, start: int) {
    && (forall i :: 0 <= i < |events| ==> start <= events[i].now)
    && (forall i, j :: 0 <= i < j < |events| ==> events[i].now <= events[j].now)
  }

  function Next(cfg: Config, b: Breaker, e: Event): Breaker {
    match e
    case Query(now) => Queried(cfg, b, now)
    case Success(now) => Succeeded(cfg, b, now)
    case Failure(now) => Failed(cfg, b, now)
  }

  /** The times at which the breaker opens. */
  function Openings(cfg: Config, b: Breaker, events: seq<Event>): seq<int>
    decreases |events|
  {
    if events == [] then []
    else
      var b' := Next(cfg, b, events[0]);
      (if b.state != Open && b'.state == Open then [events[0].now] else []) + Openings(cfg, b', events[1..])
  }

  lemma {:induction false} OpeningsInOrder(cfg: Config, b: Breaker, events: seq<Event>, start: int)
    requires Timed(events, start)
    ensures forall i :: 0 <= i < |Openings(cfg, b, events)| ==> start <= Openings(cfg, b, events)[i]
    decreases |events|
  {
    if events != [] {
      OpeningsInOrder(cfg, Next(cfg, b, events[0]), events[1..], events[0].now);
    }
  }

  /** An open breaker does not open again before the timeout after its last change. */
  lemma {:induction false} OpenWaits(cfg: Config, b: Breaker, events: seq<Event>)
    requires b.state == Open && Timed(events, b.lastChange)
    ensures forall i :: 0 <= i < |Openings(cfg, b, events)| ==>
      b.lastChange + cfg.Reset() <= Openings(cfg, b, events)[i]
    decreases |events|
  {
    if events != [] {
      var b' := Next(cfg, b, events[0]);
      if b'.state == Open {
        OpenWaits(cfg, b', events[1..]);
      } else {
        OpeningsInOrder(cfg, b', events[1..], events[0].now);
      }
    }
  }

  lemma Multiply(n: int, reset: int)
    ensures (n + 1) * reset == n * reset + reset
  {
  }

  /** Among the openings of a run any two are apart by the timeout times the number of steps between them:
      n openings within a span of T milliseconds mean (n - 1) * timeout <= T. */
  lemma {:induction false} OpeningsApart(cfg: Config, b: Breaker, events: seq<Event>, start: int, i: nat, j: nat)
    requires Timed(events, start) && i <= j < |Openings(cfg, b, events)|
    ensures (j - i) * cfg.Reset() <= Openings(cfg, b, events)[j] - Openings(cfg, b, events)[i]
    decreases |events|, j
  {
    var e, b' := events[0], Next(cfg, b, events[0]);
    var rest := Openings(cfg, b', events[1..]);
    if i == j {
      assert (j - i) * cfg.Reset() == 0;
    } else if b.state != Open && b'.state == Open {
      assert Openings(cfg, b, events) == [e.now] + rest;
      if i == 0 {
        OpenWaits(cfg, b', events[1..]);
        OpeningsApart(cfg, b', events[1..], e.now, 0, j - 1);
        Multiply(j - 1, cfg.Reset());
      } else {
        OpeningsApart(cfg, b', events[1..], e.now, i - 1, j - 1);
      }
    } else {
      assert Openings(cfg, b, events) == rest;
      OpeningsApart(cfg, b', events[1..], e.now, i, j);
    }
  }

  // ---- the thresholds ----

  function Run(cfg: Config, start: int, events: seq<Event>): Breaker
    decreases |events|
  {
    if events == [] then Start(start) else Next(cfg, Run(cfg, start, events[..|events| - 1]), events[|events| - 1])
  }

  /** Failures since the last success or closing; only meant for a closed breaker. */
  function FailureRun(cfg: Config, start: int, events: seq<Event>): nat
    decreases |events|
  {
    if events == [] then 0
    else
      var init, e := events[..|events| - 1], events[|events| - 1];
      if Run(cfg, start, init).state != Closed || e.Success? then 0
      else FailureRun(cfg, start, init) + if e.Failure? then 1 else 0
  }

  /** Successes since the breaker last became half-open; only meant for a half-open breaker. */
  function SuccessRun(cfg: Config, start: int, events: seq<Event>): nat
    decreases |events|
  {
    if events == [] then 0
    else
      var init, e := events[..|events| - 1], events[|events| - 1];
      if Run(cfg, start, init).state != HalfOpen then 0
      else SuccessRun(cfg, start, init) + if e.Success? then 1 else 0
  }

  /** The counters hold the current runs, below their thresholds; with 32-bit thresholds they never wrap. */
  lemma {:induction false} CountersAreRuns(cfg: Config, start: int, events: seq<Event>)
    ensures var b := Run(cfg, start, events);
      && (b.state == Closed ==> b.failures == FailureRun(cfg, start, events) < Max(1, cfg.failureThreshold))
      && (b.state == HalfOpen ==> b.successes == SuccessRun(cfg, start, events) < Max(1, cfg.successThreshold))
      && b.failures <= Max(1, cfg.failureThreshold) && b.successes < Max(1, cfg.successThreshold)
    decreases |events|
  {
    if events != [] {
      CountersAreRuns(cfg, start, events[..|events| - 1]);
    }
  }

  /** A closed breaker opens exactly at the failure that makes the run of failures as long as the threshold,
      a threshold of zero counting as one. */
  lemma OpensAtThreshold(cfg: Config, start: int, events: seq<Event>, e: Event)
    requires Run(cfg, start, events).state == Closed
    ensures Run(cfg, start, events + [e]).state == Open
       <==> e.Failure? && FailureRun(cfg, start, events) + 1 == Max(1, cfg.failureThreshold)
  {
    CountersAreRuns(cfg, start, events);
    assert (events + [e])[..|events|] == events;
  }

  /** A breaker that is not closed closes exactly at the half-open success that makes the run of successes as
      long as its threshold; a failure in between would have opened it. */
  lemma ClosesAtThreshold(cfg: Config, start: int, events: seq<Event>, e: Event)
    requires Run(cfg, start, events).state != Closed
    ensures Run(cfg, start, events + [e]).state == Closed
       <==> Run(cfg, start, events).state == HalfOpen && e.Success?
            && SuccessRun(cfg, start, events) + 1 == Max(1, cfg.successThreshold)
    ensures Run(cfg, start, events).state == HalfOpen && e.Failure? ==> Run(cfg, start, events + [e]).state == Open
  {
    CountersAreRuns(cfg, start, events);
    assert (events + [e])[..|events|] == events;
  }

  // ---- who is refused ----

  /** The time of the last failure that opened the breaker or found it open; only meant for an open one. */
  function WaitStart(cfg: Config, start: int, events: seq<Event>): int
    decreases |events|
  {
    if events == [] then start
    else
      var e := events[|events| - 1];
      if e.Failure? && Run(cfg, start, events).state == Open then e.now
      else WaitStart(cfg, start, events[..|events| - 1])
  }

  lemma {:induction false} OpenSinceWaitStart(cfg: Config, start: int, events: seq<Event>)
    ensures var b := Run(cfg, start, events); b.state == Open ==> b.lastChange == WaitStart(cfg, start, events)
    decreases |events|
  {
    if events != [] {
      OpenSinceWaitStart(cfg, start, events[..|events| - 1]);
    }
  }

  lemma {:induction false} WaitStartPast(cfg: Config, start: int, events: seq<Event>, now: int)
    requires start <= now && forall i :: 0 <= i < |events| ==> events[i].now <= now
    ensures WaitStart(cfg, start, events) <= now
    decreases |events|
  {
    if events != [] {
      WaitStartPast(cfg, start, events[..|events| - 1], now);
    }
  }

  /** A request is refused exactly while the breaker is open and less than the timeout has passed since the
      later of its opening and the last failure recorded while it was open; any other request finds it closed
      or half-open. A timeout that the cast makes negative refuses none. */
  lemma RefusedExactly(cfg: Config, start: int, events: seq<Event>, now: int)
    requires start <= now && forall i :: 0 <= i < |events| ==> events[i].now <= now
    ensures cfg.resetTimeoutMs < 0x8000_0000_0000_0000 ==>
      (Run(cfg, start, events + [Query(now)]).state == Open
       <==> Run(cfg, start, events).state == Open && now - WaitStart(cfg, start, events) < cfg.resetTimeoutMs)
    ensures 0x8000_0000_0000_0000 <= cfg.resetTimeoutMs < 0x1_0000_0000_0000_0000 ==>
      Run(cfg, start, events + [Query(now)]).state != Open
    ensures Run(cfg, start, []).state == Closed
  {
    OpenSinceWaitStart(cfg, start, events);
    WaitStartPast(cfg, start, events, now);
    assert (events + [Query(now)])[..|events|] == events;
  }

  /** An open breaker whose wait is over half-opens, and counts its trial successes from zero. */
  lemma HalfOpensAfterWait(cfg: Config, start: int, events: seq<Event>, now: int)
    requires Run(cfg, start, events).state == Open && cfg.resetTimeoutMs < I64_LIMIT
    requires now - WaitStart(cfg, start, events) >= cfg.resetTimeoutMs
    ensures var b := Run(cfg, start, events + [Query(now)]); b.state == HalfOpen && b.successes == 0
  {
    OpenSinceWaitStart(cfg, start, events);
    assert (events + [Query(now)])[..|events|] == events;
  }
}

/** CircuitBreaker, each method one atomic step, and its runs. */
module Breaker {
  import opened Base

  datatype CircuitState = Closed | Open | HalfOpen

  datatype Options = Options(failureThreshold: int, openDuration: int, halfOpenMaxCalls: int)

  type LiveOptions = o: Options | o.failureThreshold > 0 && o.openDuration > 0 && o.halfOpenMaxCalls > 0
    witness Options(10, SECOND / 5, 5)

  function WithDefaults(o: Options): (l: LiveOptions)
    ensures o.failureThreshold > 0 ==> l.failureThreshold == o.failureThreshold
    ensures o.openDuration > 0 ==> l.openDuration == o.openDuration
    ensures o.halfOpenMaxCalls > 0 ==> l.halfOpenMaxCalls == o.halfOpenMaxCalls
    ensures o.failureThreshold <= 0 ==> l.failureThreshold == 10
    ensures o.openDuration <= 0 ==> l.openDuration == 200 * (SECOND / 1000)
    ensures o.halfOpenMaxCalls <= 0 ==> l.halfOpenMaxCalls == 5
  {
    Options(if o.failureThreshold <= 0 then 10 else o.failureThreshold,
            if o.openDuration <= 0 then SECOND / 5 else o.openDuration,
            if o.halfOpenMaxCalls <= 0 then 5 else o.halfOpenMaxCalls)
  }

  datatype Circuit = Circuit(state: CircuitState, failures: int, openUntil: int, halfOpenInFlight: int)

  const INITIAL: Circuit := Circuit(Closed, 0, 0, 0)

  function AllowStep(c: Circuit, o: LiveOptions, now: int): (Circuit, bool) {
    match c.state
    case Closed => (c, true)
    case Open =>
      if now >= c.openUntil then (c.(state := HalfOpen, halfOpenInFlight := 0), true) else (c, false)
    case HalfOpen =>
      if c.halfOpenInFlight + 1 <= o.halfOpenMaxCalls
      then (c.(halfOpenInFlight := c.halfOpenInFlight + 1), true)
      else (c, false)
  }

  function SuccessStep(c: Circuit): Circuit {
    match c.state
    case Closed => c.(failures := 0)
    case Open => c
    case HalfOpen => c.(state := Closed, failures := 0, halfOpenInFlight := c.halfOpenInFlight - 1)
  }

  function FailureStep(c: Circuit, o: LiveOptions, now: int): Circuit {
    if c.state == HalfOpen then
      Circuit(Open, o.failureThreshold, now + o.openDuration, c.halfOpenInFlight - 1)
    else if c.failures + 1 >= o.failureThreshold then
      c.(state := Open, failures := c.failures + 1, openUntil := now + o.openDuration)
    else
      c.(failures := c.failures + 1)
  }

  class CircuitBreaker {
    const opts: LiveOptions
    var state: CircuitState
    var failures: int
    var openUntil: int
    var halfOpenInFlight: int
    var lastFailure: int

    ghost function Contents(): Circuit
      reads this
    {
      Circuit(state, failures, openUntil, halfOpenInFlight)
    }

    constructor (options: Options)
      ensures Contents() == INITIAL && opts == WithDefaults(options)
    {
      opts := WithDefaults(options);
      state, failures, openUntil, halfOpenInFlight, lastFailure := Closed, 0, 0, 0, 0;
    }

    method Allow(now: int) returns (ok: bool)
      modifies this
      ensures (Contents(), ok) == AllowStep(old(Contents()), opts, now)
    {
      match state {
        case Closed =>
          ok := true;
        case Open =>
          ok := now >= openUntil;
          if ok {
            state, halfOpenInFlight := HalfOpen, 0;
          }
        case HalfOpen =>
          halfOpenInFlight := halfOpenInFlight + 1;
          ok := halfOpenInFlight <= opts.halfOpenMaxCalls;
          if !ok {
            halfOpenInFlight := halfOpenInFlight - 1;
          }
      }
    }

    method OnSuccess()
      modifies this
      ensures Contents() == SuccessStep(old(Contents()))
    {
      if state == HalfOpen {
        halfOpenInFlight := halfOpenInFlight - 1;
        failures := 0;
        state := Closed;
      } else if state == Closed {
        failures := 0;
      }
    }

    method OnFailure(now: int)
      modifies this
      ensures Contents() == FailureStep(old(Contents()), opts, now)
    {
      lastFailure := now;
      if state == HalfOpen {
        halfOpenInFlight := halfOpenInFlight - 1;
        failures := opts.failureThreshold;
        openUntil := now + opts.openDuration;
        state := Open;
        return;
      }
      failures := failures + 1;
      if failures >= opts.failureThreshold {
        openUntil := now + opts.openDuration;
        state := Open;
      }
    }
  }

  // Runs of the breaker together with the calls it admits

  datatype Event = Ask(now: int) | Succeed(now: int) | Fail(now: int)

  /** The breaker, the admitted calls that have not reported yet, and those of the current half-open episode. */
  datatype System = System(circuit: Circuit, outstanding: int, episode: int)

  const START: System := System(INITIAL, 0, 0)

  /** An admitted call reports exactly one outcome; only admitted calls report. */
  predicate Enabled(s: System, e: Event) {
    e.Ask? || s.outstanding > 0
  }

  function Next(s: System, o: LiveOptions, e: Event): System {
    match e
    case Ask(now) =>
      var (c, ok) := AllowStep(s.circuit, o, now);
      if !ok then s.(circuit := c)
      else
        System(c, s.outstanding + 1,
               if c.state != HalfOpen then 0 else if s.circuit.state == Open then 1 else s.episode + 1)
    case Succeed(now) => System(SuccessStep(s.circuit), s.outstanding - 1, s.episode)
    case Fail(now) => System(FailureStep(s.circuit, o, now), s.outstanding - 1, s.episode)
  }

  /** The system after a run; events that cannot happen are not part of any run. */
  ghost predicate IsRun(s: System, o: LiveOptions, events: seq<Event>)
    decreases |events|
  {
    events == [] || (Enabled(s, events[0]) && IsRun(Next(s, o, events[0]), o, events[1..]))
  }

  function Run(s: System, o: LiveOptions, events: seq<Event>): System
    decreases |events|
  {
    if events == [] then s else Run(Next(s, o, events[0]), o, events[1..])
  }

  ghost predicate Healthy(s: System, o: LiveOptions) {
    && s.outstanding >= 0
    && (s.circuit.state == HalfOpen ==>
          && 0 <= s.circuit.halfOpenInFlight <= o.halfOpenMaxCalls
          && s.episode == 1 + s.circuit.halfOpenInFlight
          && s.outstanding >= 1 + s.circuit.halfOpenInFlight)
    && (s.circuit.state == Closed ==> 0 <= s.circuit.failures < o.failureThreshold)
    && (s.circuit.state == Open ==> s.circuit.failures >= o.failureThreshold)
  }

  lemma StepKeepsHealthy(s: System, o: LiveOptions, e: Event)
    requires Healthy(s, o) && Enabled(s, e)
    ensures Healthy(Next(s, o, e), o)
  {
  }

  /**
   * The breaker never wedges: in every reachable state a half-open breaker has outstanding calls, at least one
   * more than its counter, any completion leaves half-open, and an episode admits at most HalfOpenMaxCalls + 1.
   */
  lemma {:induction false} NeverWedges(s: System, o: LiveOptions, events: seq<Event>)
    requires Healthy(s, o) && IsRun(s, o, events)
    ensures var end := Run(s, o, events);
            end.circuit.state == HalfOpen ==>
              && end.outstanding >= 1 + end.circuit.halfOpenInFlight >= 1
              && 1 <= end.episode <= o.halfOpenMaxCalls + 1
              && (forall now :: Next(end, o, Succeed(now)).circuit.state == Closed)
              && (forall now :: Next(end, o, Fail(now)).circuit.state == Open)
    decreases |events|
  {
    if events != [] {
      StepKeepsHealthy(s, o, events[0]);
      NeverWedges(Next(s, o, events[0]), o, events[1..]);
    }
  }

  /** The calls admitted since the breaker last went from open to half-open, read off the history alone. */
  function Probes(s: System, o: LiveOptions, events: seq<Event>, sofar: int): int
    decreases |events|
  {
    if events == [] then sofar
    else
      var s' := Next(s, o, events[0]);
      var admitted := if s'.outstanding > s.outstanding then 1 else 0;
      Probes(s', o, events[1..],
             if s.circuit.state == Open && s'.circuit.state == HalfOpen then 1
             else if s'.circuit.state == HalfOpen then sofar + admitted else 0)
  }

  /** The episode counter counts those calls, and there are at most HalfOpenMaxCalls + 1. */
  lemma {:induction false} EpisodeCountsProbes(s: System, o: LiveOptions, events: seq<Event>, sofar: int)
    requires Healthy(s, o) && IsRun(s, o, events)
    requires s.circuit.state == HalfOpen ==> s.episode == sofar
    ensures Run(s, o, events).circuit.state == HalfOpen ==>
              Probes(s, o, events, sofar) == Run(s, o, events).episode <= o.halfOpenMaxCalls + 1
    decreases |events|
  {
    if events != [] {
      var s' := Next(s, o, events[0]);
      StepKeepsHealthy(s, o, events[0]);
      var admitted := if s'.outstanding > s.outstanding then 1 else 0;
      EpisodeCountsProbes(s', o, events[1..],
        if s.circuit.state == Open && s'.circuit.state == HalfOpen then 1
        else if s'.circuit.state == HalfOpen then sofar + admitted else 0);
    }
  }

  /** Failures reported since the last reported success, whatever the breaker made of them. */
  function Streak(events: seq<Event>, before: int): int {
    if events == [] then before
    else Streak(events[1..], match events[0] case Ask(_) => before case Succeed(_) => 0 case Fail(_) => before + 1)
  }

  lemma {:induction false} FailuresAreStreak(s: System, o: LiveOptions, events: seq<Event>, before: int)
    requires Healthy(s, o) && IsRun(s, o, events)
    requires s.circuit.state == Closed ==> s.circuit.failures == before
    ensures Run(s, o, events).circuit.state == Closed ==> Run(s, o, events).circuit.failures == Streak(events, before)
    decreases |events|
  {
    if events != [] {
      StepKeepsHealthy(s, o, events[0]);
      var next := match events[0] case Ask(_) => before case Succeed(_) => 0 case Fail(_) => before + 1;
      FailuresAreStreak(Next(s, o, events[0]), o, events[1..], next);
    }
  }

  lemma {:induction false} RunsStayHealthy(s: System, o: LiveOptions, events: seq<Event>)
    requires Healthy(s, o) && IsRun(s, o, events)
    ensures Healthy(Run(s, o, events), o)
    decreases |events|
  {
    if events != [] {
      StepKeepsHealthy(s, o, events[0]);
      RunsStayHealthy(Next(s, o, events[0]), o, events[1..]);
    }
  }

  /** A closed breaker opens exactly at the FailureThreshold-th failure reported since the last success. */
  lemma OpensAtThreshold(o: LiveOptions, events: seq<Event>, e: Event)
    requires IsRun(START, o, events) && Run(START, o, events).circuit.state == Closed
    requires Enabled(Run(START, o, events), e)
    ensures Next(Run(START, o, events), o, e).circuit.state == Open
            <==> e.Fail? && Streak(events, 0) + 1 == o.failureThreshold
  {
    FailuresAreStreak(START, o, events, 0);
    RunsStayHealthy(START, o, events);
  }

  // When calls are admitted

  /** The instant of the last reported failure. */
  function LastFailure(events: seq<Event>, before: int): int {
    if events == [] then before
    else LastFailure(events[1..], if events[0].Fail? then events[0].now else before)
  }

  lemma {:induction false} OpenSinceLastFailure(s: System, o: LiveOptions, events: seq<Event>, before: int)
    requires Healthy(s, o) && IsRun(s, o, events)
    requires s.circuit.state == Open ==> s.circuit.openUntil == before + o.openDuration
    ensures var c := Run(s, o, events).circuit;
            c.state == Open ==> c.openUntil == LastFailure(events, before) + o.openDuration
    decreases |events|
  {
    if events != [] {
      StepKeepsHealthy(s, o, events[0]);
      OpenSinceLastFailure(Next(s, o, events[0]), o, events[1..], if events[0].Fail? then events[0].now else before);
    }
  }

  /** A call that asks now is admitted: it has an outcome to report. */
  predicate Admits(s: System, o: LiveOptions, now: int) {
    Next(s, o, Ask(now)).outstanding == s.outstanding + 1
  }

  /**
   * After any run, from its history alone: a closed breaker admits every call; an open one admits a call exactly from
   * OpenDuration after the last reported failure on, and goes half-open with it; a half-open one admits calls exactly
   * while fewer than HalfOpenMaxCalls + 1 were admitted in the episode.
   */
  lemma AdmitsIff(o: LiveOptions, events: seq<Event>, now: int)
    requires IsRun(START, o, events)
    ensures var s := Run(START, o, events);
            && Admits(s, o, now) == (match s.circuit.state
                 case Closed => true
                 case Open => now >= LastFailure(events, 0) + o.openDuration
                 case HalfOpen => Probes(START, o, events, 0) < o.halfOpenMaxCalls + 1)
            && Next(s, o, Ask(now)).circuit.state ==
               (if s.circuit.state == Open && Admits(s, o, now) then HalfOpen else s.circuit.state)
  {
    OpenSinceLastFailure(START, o, events, 0);
    EpisodeCountsProbes(START, o, events, 0);
    RunsStayHealthy(START, o, events);
  }

  predicate Within(events: seq<Event>, clock: int, until: int) {
    events == [] || (clock <= events[0].now < until && Within(events[1..], events[0].now, until))
  }

  /** No call is admitted by any event of the series. */
  predicate NoneAdmitted(s: System, o: LiveOptions, events: seq<Event>)
    decreases |events|
  {
    events == [] ||
    ((events[0].Ask? ==> !AllowStep(s.circuit, o, events[0].now).1)
     && NoneAdmitted(Next(s, o, events[0]), o, events[1..]))
  }

  /** Once opened at `openedAt`, nothing is admitted for OpenDuration, whatever late outcomes arrive. */
  lemma {:induction false} StaysOpen(s: System, o: LiveOptions, events: seq<Event>, clock: int, openedAt: int)
    requires Healthy(s, o) && s.circuit.state == Open && openedAt + o.openDuration <= s.circuit.openUntil
    requires openedAt <= clock && Within(events, clock, openedAt + o.openDuration)
    requires IsRun(s, o, events)
    ensures NoneAdmitted(s, o, events) && Run(s, o, events).circuit.state == Open
    decreases |events|
  {
    if events != [] {
      StepKeepsHealthy(s, o, events[0]);
      StaysOpen(Next(s, o, events[0]), o, events[1..], events[0].now, openedAt);
    }
  }

  /** Every opening of a reachable breaker starts such a period. */
  lemma OpeningBlocks(o: LiveOptions, events: seq<Event>, e: Event, after: seq<Event>)
    requires IsRun(START, o, events) && Enabled(Run(START, o, events), e)
    requires Run(START, o, events).circuit.state != Open
    requires Next(Run(START, o, events), o, e).circuit.state == Open
    requires IsRun(Next(Run(START, o, events), o, e), o, after) && Within(after, e.now, e.now + o.openDuration)
    ensures NoneAdmitted(Next(Run(START, o, events), o, e), o, after)
  {
    var s := Run(START, o, events);
    RunsStayHealthy(START, o, events);
    StepKeepsHealthy(s, o, e);
    StaysOpen(Next(s, o, e), o, after, e.now, e.now);
  }
}

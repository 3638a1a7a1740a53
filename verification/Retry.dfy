/** What the RetryAfter of a denied call promises. */
module Retry {
  import opened Base
  import opened Limits
  import opened Store
  import opened Bounds

  // Token bucket

  datatype Attempt = Attempt(at: real, cost: int)

  /** The bucket after a series of calls. */
  function BucketAfter(b: Bucket, p: Params, calls: seq<Attempt>): Bucket
    requires p.limit > 0
    decreases |calls|
  {
    if calls == [] then b
    else BucketAfter(BucketStep(Some(b), p, calls[0].at, calls[0].cost).0, p, calls[1..])
  }

  /** All the calls are denied, at instants that never go back and end by `until`. */
  predicate DeniedUntil(b: Bucket, p: Params, calls: seq<Attempt>, until: real)
    requires p.limit > 0
    decreases |calls|
  {
    if calls == [] then b.last <= until
    else
      var (b', d) := BucketStep(Some(b), p, calls[0].at, calls[0].cost);
      b.last <= calls[0].at && !d.allowed && DeniedUntil(b', p, calls[1..], until)
  }

  /** Refills compose: stopping on the way changes nothing. */
  lemma RefillsCompose(tokens: real, rate: real, capacity: real, a: real, b: real, c: real)
    requires rate > 0.0 && tokens <= capacity && a <= b <= c
    ensures Refill(Refill(tokens, rate, capacity, a, b), rate, capacity, b, c) == Refill(tokens, rate, capacity, a, c)
  {
    hide Gain;
    GainSplits(rate, a, b, c);
  }

  lemma {:induction false} DeniedCallsOnlyRefill(b: Bucket, p: Params, calls: seq<Attempt>, t: real)
    requires p.limit > 0 && b.tokens <= Capacity(p) as real && DeniedUntil(b, p, calls, t)
    ensures Available(Some(BucketAfter(b, p, calls)), p, t) == Available(Some(b), p, t)
    decreases |calls|
  {
    if calls != [] {
      var b' := BucketStep(Some(b), p, calls[0].at, calls[0].cost).0;
      assert b' == Bucket(Available(Some(b), p, calls[0].at), calls[0].at);
      DeniedCallsOnlyRefill(b', p, calls[1..], t);
      LastBefore(b', p, calls[1..], t);
      RefillsCompose(b.tokens, Rate(p), Capacity(p) as real, b.last, calls[0].at, t);
    }
  }

  lemma {:induction false} LastBefore(b: Bucket, p: Params, calls: seq<Attempt>, t: real)
    requires p.limit > 0 && DeniedUntil(b, p, calls, t)
    ensures b.last <= t
    decreases |calls|
  {
    if calls != [] {
      LastBefore(BucketStep(Some(b), p, calls[0].at, calls[0].cost).0, p, calls[1..], t);
    }
  }

  /** Waiting `missing / rate` is exactly long enough to gain `missing` tokens. */
  lemma WaitIsExact(rate: real, missing: real, from: real, to: real)
    requires rate > 0.0
    ensures Gain(rate, from, to) >= missing <==> to >= from + missing / rate
  {
    var wait := missing / rate;
    assert wait * rate == missing;
    assert Gain(rate, from, to) - missing == rate * (to - from - wait);
    if to - from - wait >= 0.0 {
      assert rate * (to - from - wait) >= 0.0;
    } else {
      assert rate * (to - from - wait) < 0.0;
    }
  }

  /** A denied call within the capacity, retried after denied calls only, succeeds from RetryAfter on and not before. */
  lemma TokenBucketRetryIsExact(b: Option<Bucket>, p: Params, t0: real, cost: int, between: seq<Attempt>, t: real)
    requires p.limit > 0 && BucketWithin(b, Capacity(p) as real, t0)
    requires !BucketStep(b, p, t0, cost).1.allowed && cost <= Capacity(p)
    requires DeniedUntil(BucketStep(b, p, t0, cost).0, p, between, t)
    ensures var (b1, d1) := BucketStep(b, p, t0, cost);
            BucketStep(Some(BucketAfter(b1, p, between)), p, t, cost).1.allowed <==> t >= t0 + d1.retryAfter
  {
    var (b1, d1) := BucketStep(b, p, t0, cost);
    var rate := Rate(p);
    BudgetPays(b, Available(b, p, t0), 0.0, Capacity(p) as real, rate, t0, t0, t0, t0);
    DeniedCallsOnlyRefill(b1, p, between, t);
    LastBefore(b1, p, between, t);
    RetryArithmetic(rate, Capacity(p) as real, b1.tokens, cost as real, t0, t);
  }

  lemma RetryArithmetic(rate: real, capacity: real, tokens: real, cost: real, t0: real, t: real)
    requires rate > 0.0 && tokens < cost <= capacity && t0 <= t
    ensures cost <= Refill(tokens, rate, capacity, t0, t) <==> t >= t0 + (cost - tokens) / rate
  {
    WaitIsExact(rate, cost - tokens, t0, t);
    WaitIsExact(rate, cost - tokens, t0, t0);
    hide Gain;
  }

  /** A call larger than the capacity is denied in every reachable bucket, however long it waits. */
  lemma OverCapacityNeverSucceeds(b: Option<Bucket>, p: Params, t: real, cost: int)
    requires p.limit > 0 && cost > Capacity(p) && BucketWithin(b, Capacity(p) as real, t)
    ensures !BucketStep(b, p, t, cost).1.allowed
  {
    hide Gain, Rate;
    BudgetPays(b, Available(b, p, t), 0.0, Capacity(p) as real, Rate(p), t, t, t, t);
  }

  // Fixed window

  /** Retried with no call in between, a denied fixed-window call succeeds exactly if it fits and RetryAfter is over. */
  lemma FixedWindowRetryIsExact(c: Option<Counter>, limit: int, window: int, t0: int, cost: int, t: int)
    requires window > 0 && t0 <= t && !CounterStep(c, limit, window, t0, cost).1.allowed
    ensures var (c1, d1) := CounterStep(c, limit, window, t0, cost);
            CounterStep(Some(c1), limit, window, t, cost).1.allowed <==>
            cost <= limit && t as real >= t0 as real + d1.retryAfter
  {
    var (c1, d1) := CounterStep(c, limit, window, t0, cost);
    var start := Truncate(t0, window);
    TruncateMonotone(t0, t, window);
    AlignedStart(t0, window);
    WindowOf(t, window, start);
    assert d1.retryAfter == (start + window - t0) as real;
  }

  // Sliding window

  /** Events in time order between `from` and `clock`, with positive costs. */
  predicate InTimeOrder(events: seq<Event>, from: int, clock: int) {
    events == [] ||
    (events[0].cost > 0 && from <= events[0].t <= clock && InTimeOrder(events[1..], events[0].t, clock))
  }

  /** What every reachable log satisfies. */
  ghost predicate LogReached(c: Option<Cell>, window: int, from: int, clock: int) {
    LogHasWindow(c, window) && InTimeOrder(EventsOf(c), from, clock)
  }

  /** Expiry keeps the order; events that all start at or after the cutoff are all kept. */
  lemma {:induction false} KeepInTimeOrder(events: seq<Event>, cutoff: int, from: int, clock: int)
    requires InTimeOrder(events, from, clock)
    ensures InTimeOrder(Keep(events, cutoff), Max(from, cutoff), clock)
    ensures cutoff <= from ==> Keep(events, cutoff) == events
  {
    if events != [] {
      var rest := Keep(events[1..], cutoff);
      KeepInTimeOrder(events[1..], cutoff, events[0].t, clock);
      if events[0].t >= cutoff {
        assert Keep(events, cutoff) == [events[0]] + rest;
        assert ([events[0]] + rest)[1..] == rest;
      } else {
        assert Keep(events, cutoff) == rest;
        StartsEarlier(rest, Max(events[0].t, cutoff), Max(from, cutoff), clock);
      }
    }
  }

  lemma {:induction false} StartsEarlier(events: seq<Event>, from: int, earlier: int, clock: int)
    requires InTimeOrder(events, from, clock) && earlier <= from
    ensures InTimeOrder(events, earlier, clock)
  {
  }

  lemma {:induction false} AppendInTimeOrder(events: seq<Event>, e: Event, from: int, clock: int)
    requires InTimeOrder(events, from, clock) && from <= e.t && clock <= e.t
    ensures e.cost > 0 ==> InTimeOrder(events + [e], from, e.t)
    ensures InTimeOrder(events, from, e.t)
  {
    if events != [] {
      assert (events + [e])[1..] == events[1..] + [e];
      AppendInTimeOrder(events[1..], e, events[0].t, clock);
    }
  }

  lemma LogStepReached(c: Option<Cell>, op: Op, now: int, from: int, clock: int)
    requires op.kind == SlidingWindow && op.cost > 0 && op.params.limit > 0 && from <= clock <= now
    requires LogReached(c, DefaultWindow(op.params.window), from, clock)
    ensures LogReached(Some(CellStep(c, op, now).0), DefaultWindow(op.params.window), from, now)
  {
    hide CellStep, Keep, TotalCost;
    var cut := now - DefaultWindow(op.params.window);
    var live := Keep(EventsOf(c), cut);
    KeepInTimeOrder(EventsOf(c), cut, from, clock);
    StartsEarlier(live, Max(from, cut), from, clock);
    AppendInTimeOrder(live, Event(now, op.cost), from, clock);
    LogStepAppends(c, op, now);
    assert live + [] == live;
  }

  /** Every run leads to such a log. */
  lemma {:induction false} RunsReachLogs(
    s: Store, calls: seq<Call>, from: int, clock: int, until: int, key: string, p: Params)
    requires Ordered(calls, clock) && EndsBy(calls, clock, until) && from <= clock
    requires FixedParams(calls, CellId(SlidingWindow, key), p)
    requires LogReached(Get(s, CellId(SlidingWindow, key)), DefaultWindow(p.window), from, clock)
    ensures LogReached(Get(Run(s, calls), CellId(SlidingWindow, key)), DefaultWindow(p.window), from, until)
    decreases |calls|
  {
    hide Exec, CellStep;
    var id := CellId(SlidingWindow, key);
    AppendInTimeOrder(EventsOf(Get(s, id)), Event(if calls == [] then until else calls[0].now, 0), from, clock);
    if calls != [] {
      var c := calls[0];
      ExecIsLocal(s, c.healthy, c.op, c.now, id);
      if Accepts(c.healthy, c.op) && CellOf(c.op) == id {
        LogStepReached(Get(s, id), c.op, c.now, from, clock);
      }
      RunsReachLogs(After(s, c), calls[1..], from, c.now, until, key, p);
    }
  }

  /** While nothing in the log can expire, it only grows. */
  lemma {:induction false} LogOnlyGrows(
    s: Store, calls: seq<Call>, clock: int, key: string, p: Params, base: seq<Event>, first: int)
    requires Ordered(calls, clock) && EndsBy(calls, clock, first + DefaultWindow(p.window)) && first <= clock
    requires FixedParams(calls, CellId(SlidingWindow, key), p)
    requires LogReached(Get(s, CellId(SlidingWindow, key)), DefaultWindow(p.window), first, clock)
    requires base <= EventsOf(Get(s, CellId(SlidingWindow, key)))
    ensures base <= EventsOf(Get(Run(s, calls), CellId(SlidingWindow, key)))
    decreases |calls|
  {
    hide Exec, CellStep, Keep, TotalCost;
    if calls != [] {
      var c, id := calls[0], CellId(SlidingWindow, key);
      ExecIsLocal(s, c.healthy, c.op, c.now, id);
      AppendInTimeOrder(EventsOf(Get(s, id)), Event(c.now, 0), first, clock);
      if Accepts(c.healthy, c.op) && CellOf(c.op) == id {
        LogStepReached(Get(s, id), c.op, c.now, first, clock);
        KeepInTimeOrder(EventsOf(Get(s, id)), c.now - DefaultWindow(p.window), first, clock);
        LogStepAppends(Get(s, id), c.op, c.now);
      }
      LogOnlyGrows(After(s, c), calls[1..], c.now, key, p, base, first);
    }
  }

  /** The delay reported with a denial: until the oldest live event is one window old. */
  function RetryDelay(live: seq<Event>, window: int, now: int): int {
    if live == [] then 0 else Max(0, live[0].t + window - now)
  }

  lemma LogStepAppends(c: Option<Cell>, op: Op, now: int)
    requires op.kind == SlidingWindow && op.params.limit > 0 && LogHasWindow(c, DefaultWindow(op.params.window))
    ensures var live := Keep(EventsOf(c), now - DefaultWindow(op.params.window));
            var (cell, d) := CellStep(c, op, now);
            && LogHasWindow(Some(cell), DefaultWindow(op.params.window))
            && EventsOf(Some(cell)) == live + (if d.allowed then [Event(now, op.cost)] else [])
            && d.allowed == (TotalCost(live) + op.cost <= op.params.limit)
            && (d.allowed || d.retryAfter == RetryDelay(live, DefaultWindow(op.params.window), now) as real)
  {
    LogCellAppends(c, op, now);
    assert EventsOf(c) == [] ==> Keep(EventsOf(c), now - DefaultWindow(op.params.window)) == [];
  }

  lemma {:induction false} PrefixCostsLess(a: seq<Event>, b: seq<Event>, from: int, clock: int)
    requires a <= b && InTimeOrder(b, from, clock)
    ensures TotalCost(a) <= TotalCost(b)
  {
    if b != [] {
      PrefixCostsLess(if a == [] then [] else a[1..], b[1..], b[0].t, clock);
    }
  }

  /** A denied sliding-window call stays denied up to and including RetryAfter, whatever is admitted meanwhile. */
  lemma SlidingWindowRetryDenied(
    s: Store, denied: Call, between: seq<Call>, retry: Call, from: int, clock: int, key: string, p: Params)
    requires LogReached(Get(s, CellId(SlidingWindow, key)), DefaultWindow(p.window), from, clock)
    requires from <= clock <= denied.now
    requires denied.op.kind == SlidingWindow && denied.op.key == key && Accepts(denied.healthy, denied.op)
    requires CellOf(retry.op) == CellOf(denied.op) && retry.op.cost >= denied.op.cost
    requires denied.op.params == retry.op.params == p && FixedParams(between, CellId(SlidingWindow, key), p)
    requires !CellStep(Get(s, CellId(SlidingWindow, key)), denied.op, denied.now).1.allowed
    requires Ordered(between, denied.now) && EndsBy(between, denied.now, retry.now)
    requires retry.now as real
             <= denied.now as real + CellStep(Get(s, CellId(SlidingWindow, key)), denied.op, denied.now).1.retryAfter
    ensures !Admits(Run(After(s, denied), between), retry, CellId(SlidingWindow, key))
  {
    hide Exec, CellStep, Keep, TotalCost, Get;
    var id, window := CellId(SlidingWindow, key), DefaultWindow(p.window);
    var s1 := After(s, denied);
    ExecIsLocal(s, denied.healthy, denied.op, denied.now, id);
    var live := Keep(EventsOf(Get(s, id)), denied.now - window);
    KeepInTimeOrder(EventsOf(Get(s, id)), denied.now - window, from, clock);
    LogStepAppends(Get(s, id), denied.op, denied.now);
    AppendInTimeOrder(live, Event(denied.now, 0), Max(from, denied.now - window), clock);
    assert EventsOf(Get(s1, id)) == live;
    var first := if live == [] then denied.now else live[0].t;
    LogOnlyGrows(s1, between, denied.now, key, p, live, first);
    RunsReachLogs(s1, between, first, denied.now, retry.now, key, p);
    var s2 := Run(s1, between);
    ExecIsLocal(s2, retry.healthy, retry.op, retry.now, id);
    if Accepts(retry.healthy, retry.op) {
      KeepInTimeOrder(EventsOf(Get(s2, id)), retry.now - window, first, retry.now);
      PrefixCostsLess(live, EventsOf(Get(s2, id)), first, retry.now);
      LogStepAppends(Get(s2, id), retry.op, retry.now);
    }
  }
}

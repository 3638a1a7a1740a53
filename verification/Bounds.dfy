/** What a key can be admitted over any interval of any run of the store. */
module Bounds {
  import opened Base
  import opened Limits
  import opened Store

  /** One call of a run, with the health the store had at that moment. */
  datatype Call = Call(now: int, healthy: bool, op: Op)

  /** The clock of a run never goes back. */
  predicate Ordered(calls: seq<Call>, clock: int) {
    calls == [] || (clock <= calls[0].now && Ordered(calls[1..], calls[0].now))
  }

  /** The clock and every call of the run are no later than `until`. */
  predicate EndsBy(calls: seq<Call>, clock: int, until: int) {
    clock <= until && forall c | c in calls :: c.now <= until
  }

  function After(s: Store, c: Call): Store {
    Exec(s, c.healthy, c.op, c.now).0
  }

  function Run(s: Store, calls: seq<Call>): Store
    decreases |calls|
  {
    if calls == [] then s else Run(After(s, calls[0]), calls[1..])
  }

  predicate Admits(s: Store, c: Call, id: CellId) {
    CellOf(c.op) == id &&
    var r := Exec(s, c.healthy, c.op, c.now).1;
    r.Ok? && r.value.allowed
  }

  /** Cost admitted for one cell by the calls made in the closed interval [lo, hi]. */
  function Admitted(s: Store, calls: seq<Call>, id: CellId, lo: int, hi: int): int
    decreases |calls|
  {
    if calls == [] then 0
    else
      (if Admits(s, calls[0], id) && lo <= calls[0].now <= hi then calls[0].op.cost else 0)
      + Admitted(After(s, calls[0]), calls[1..], id, lo, hi)
  }

  /** Every call of the cell uses the same parameters. */
  ghost predicate FixedParams(calls: seq<Call>, id: CellId, p: Params) {
    forall c | c in calls && CellOf(c.op) == id :: c.op.params == p
  }

  /** Nothing is admitted in an interval that has already passed. */
  lemma {:induction false} PastIsClosed(s: Store, calls: seq<Call>, clock: int, id: CellId, lo: int, hi: int)
    requires Ordered(calls, clock) && hi < clock
    ensures Admitted(s, calls, id, lo, hi) == 0
    decreases |calls|
  {
    if calls != [] {
      PastIsClosed(After(s, calls[0]), calls[1..], calls[0].now, id, lo, hi);
    }
  }

  // Token bucket

  /** The bucket of a token-bucket cell. */
  function BucketOf(c: Option<Cell>): Option<Bucket> {
    if c.Some? && c.value.BucketCell? then Some(c.value.bucket) else None
  }

  ghost predicate BucketWithin(b: Option<Bucket>, capacity: real, clock: real) {
    b.Some? ==> 0.0 <= b.value.tokens <= capacity && b.value.last <= clock
  }

  /** Cost that can still be admitted in [lo, hi] from a given bucket. */
  ghost function Budget(b: Option<Bucket>, capacity: real, rate: real, lo: real, hi: real): real {
    if b.Some? && b.value.last >= lo then b.value.tokens + Gain(rate, b.value.last, hi)
    else capacity + Gain(rate, lo, hi)
  }

  lemma BudgetNotNegative(b: Option<Bucket>, capacity: real, rate: real, lo: real, hi: real, clock: real)
    requires rate > 0.0 && capacity >= 0.0 && lo <= hi && clock <= hi && BucketWithin(b, capacity, clock)
    ensures Budget(b, capacity, rate, lo, hi) >= 0.0
  {
    hide Gain;
  }

  /** Taking `taken` of the available tokens at `t` comes out of the budget. */
  lemma BudgetPays(
    b: Option<Bucket>, available: real, taken: real, capacity: real, rate: real,
    t: real, lo: real, hi: real, clock: real)
    requires rate > 0.0 && 0.0 <= capacity && clock <= t <= hi && BucketWithin(b, capacity, clock)
    requires available == match b case None => capacity
                                  case Some(k) => Refill(k.tokens, rate, capacity, k.last, t)
    requires taken == 0.0 || 0.0 <= taken <= available
    ensures BucketWithin(Some(Bucket(available - taken, t)), capacity, t)
    ensures (if lo <= t then taken else 0.0) + Budget(Some(Bucket(available - taken, t)), capacity, rate, lo, hi)
            <= Budget(b, capacity, rate, lo, hi)
  {
    hide Gain;
    GainSplits(rate, lo, t, hi);
    if b.Some? {
      GainSplits(rate, b.value.last, t, hi);
    }
  }

  /** What an accepted token-bucket call leaves in its cell. */
  lemma BucketCellStep(c: Option<Cell>, op: Op, now: int)
    requires op.kind == TokenBucket && op.params.limit > 0
    ensures var (cell, d) := CellStep(c, op, now);
            var available := Available(BucketOf(c), op.params, now as real);
            && d.allowed == (op.cost as real <= available)
            && cell == BucketCell(Bucket(available - (if d.allowed then op.cost as real else 0.0), now as real))
  {
  }

  lemma {:induction false} BucketBound(
    s: Store, calls: seq<Call>, clock: int, key: string, p: Params, rate: real, lo: int, hi: int)
    requires Ordered(calls, clock) && lo <= hi && clock <= hi && p.limit > 0 && rate == Rate(p)
    requires FixedParams(calls, CellId(TokenBucket, key), p)
    requires BucketWithin(Lookup(s.buckets, key), Capacity(p) as real, clock as real)
    ensures Admitted(s, calls, CellId(TokenBucket, key), lo, hi) as real
            <= Budget(Lookup(s.buckets, key), Capacity(p) as real, rate, lo as real, hi as real)
    decreases |calls|
  {
    hide Rate, Gain, Budget, Exec, CellStep;
    var id, capacity := CellId(TokenBucket, key), Capacity(p) as real;
    var b := Lookup(s.buckets, key);
    BudgetNotNegative(b, capacity, rate, lo as real, hi as real, clock as real);
    if calls != [] {
      var c := calls[0];
      var s' := After(s, c);
      ExecIsLocal(s, c.healthy, c.op, c.now, id);
      assert b == BucketOf(Get(s, id)) && Lookup(s'.buckets, key) == BucketOf(Get(s', id));
      if c.now > hi {
        PastIsClosed(s', calls[1..], c.now, id, lo, hi);
      } else {
        if Accepts(c.healthy, c.op) && CellOf(c.op) == id {
          BucketCellStep(Get(s, id), c.op, c.now);
          var taken := if Admits(s, c, id) then c.op.cost as real else 0.0;
          BudgetPays(b, Available(b, p, c.now as real), taken, capacity, rate,
                     c.now as real, lo as real, hi as real, clock as real);
        }
        BucketBound(s', calls[1..], c.now, key, p, rate, lo, hi);
      }
    }
  }

  lemma RateTimes(p: Params, lo: int, hi: int)
    requires p.limit > 0
    ensures Gain(Rate(p), lo as real, hi as real) == (p.limit * (hi - lo)) as real / DefaultWindow(p.window) as real
  {
    var L, W, x := p.limit as real, DefaultWindow(p.window) as real, hi as real - lo as real;
    assert (L / W) * x == L * x / W;
    assert (p.limit * (hi - lo)) as real == L * x;
  }

  lemma FreshBucketBound(calls: seq<Call>, start: int, key: string, p: Params, rate: real, lo: int, hi: int)
    requires Ordered(calls, start) && lo <= hi && p.limit > 0 && rate == Rate(p)
    requires FixedParams(calls, CellId(TokenBucket, key), p)
    ensures Admitted(EMPTY, calls, CellId(TokenBucket, key), lo, hi) as real
            <= Capacity(p) as real + Gain(rate, lo as real, hi as real)
  {
    hide Rate, Gain, Exec;
    if start <= hi {
      BucketBound(EMPTY, calls, start, key, p, rate, lo, hi);
    } else {
      PastIsClosed(EMPTY, calls, start, CellId(TokenBucket, key), lo, hi);
      BudgetNotNegative(None, Capacity(p) as real, rate, lo as real, hi as real, hi as real);
    }
  }

  /** In every run, a token bucket admits at most its capacity plus what it refills over the interval. */
  lemma TokenBucketInterval(calls: seq<Call>, start: int, key: string, p: Params, lo: int, hi: int)
    requires Ordered(calls, start) && lo <= hi && p.limit > 0
    requires FixedParams(calls, CellId(TokenBucket, key), p)
    ensures Admitted(EMPTY, calls, CellId(TokenBucket, key), lo, hi) as real
            <= Max(p.limit, p.burst) as real + (p.limit * (hi - lo)) as real / DefaultWindow(p.window) as real
  {
    hide Rate, Gain, Admitted;
    FreshBucketBound(calls, start, key, p, Rate(p), lo, hi);
    RateTimes(p, lo, hi);
  }

  /** Tokens stay between zero and the capacity in every reachable store. */
  lemma {:induction false} TokensStayInRange(s: Store, calls: seq<Call>, clock: int, key: string, p: Params)
    requires Ordered(calls, clock) && p.limit > 0
    requires FixedParams(calls, CellId(TokenBucket, key), p)
    requires BucketWithin(Lookup(s.buckets, key), Capacity(p) as real, clock as real)
    ensures key in Run(s, calls).buckets ==> 0.0 <= Run(s, calls).buckets[key].tokens <= Capacity(p) as real
    decreases |calls|
  {
    hide Gain, Budget, Exec, CellStep;
    if calls != [] {
      var c, id, b := calls[0], CellId(TokenBucket, key), Lookup(s.buckets, key);
      var s' := After(s, c);
      ExecIsLocal(s, c.healthy, c.op, c.now, id);
      assert b == BucketOf(Get(s, id)) && Lookup(s'.buckets, key) == BucketOf(Get(s', id));
      if Accepts(c.healthy, c.op) && CellOf(c.op) == id {
        BucketCellStep(Get(s, id), c.op, c.now);
        var taken := if Admits(s, c, id) then c.op.cost as real else 0.0;
        var now := c.now as real;
        BudgetPays(b, Available(b, p, now), taken, Capacity(p) as real, Rate(p), now, now, now, clock as real);
      }
      TokensStayInRange(s', calls[1..], c.now, key, p);
    }
  }

  // Fixed window

  /** Every call of the cell uses this window length and a limit of at most `most`. */
  ghost predicate FixedLength(calls: seq<Call>, id: CellId, window: int, most: int) {
    forall c | c in calls && CellOf(c.op) == id ::
      DefaultWindow(c.op.params.window) == window && c.op.params.limit <= most
  }

  /** The counter's window is aligned and not ahead of the clock. */
  ghost predicate CounterBehind(c: Option<Cell>, window: int, clock: int)
    requires window > 0
  {
    c.Some? ==> c.value.CounterCell? && c.value.counter.windowStart <= Truncate(clock, window)
  }

  ghost function UsedIn(c: Option<Cell>, start: int): int {
    if c.Some? && c.value.CounterCell? && c.value.counter.windowStart == start then c.value.counter.used else 0
  }

  lemma {:induction false} CounterBound(
    s: Store, calls: seq<Call>, clock: int, key: string, window: int, most: int, start: int)
    requires Ordered(calls, clock) && window > 0 && start == Truncate(start, window)
    requires FixedLength(calls, CellId(FixedWindow, key), window, most)
    requires CounterBehind(Get(s, CellId(FixedWindow, key)), window, clock)
    requires UsedIn(Get(s, CellId(FixedWindow, key)), start) <= Max(0, most)
    requires Truncate(clock, window) <= start
    ensures UsedIn(Get(s, CellId(FixedWindow, key)), start)
            + Admitted(s, calls, CellId(FixedWindow, key), start, start + window - 1) <= Max(0, most)
    decreases |calls|
  {
    var id := CellId(FixedWindow, key);
    if calls != [] {
      var c := calls[0];
      var s' := After(s, c);
      ExecIsLocal(s, c.healthy, c.op, c.now, id);
      TruncateMonotone(clock, c.now, window);
      WindowOf(c.now, window, start);
      if c.now >= start + window {
        PastIsClosed(s', calls[1..], c.now, id, start, start + window - 1);
      } else {
        if c.now < start {
          TruncateMonotone(c.now, start, window);
        }
        CounterBound(s', calls[1..], c.now, key, window, most, start);
      }
    }
  }

  lemma AlignedStart(t: int, window: int)
    requires window > 0
    ensures Truncate(Truncate(t, window), window) == Truncate(t, window)
  {
    var q, start := t / window, Truncate(t, window);
    var n := start / window;
    assert window * n <= window * q < window * n + window;
    if n < q {
      MulMonotone(window, n + 1, q);
    }
    if q < n {
      MulMonotone(window, q + 1, n);
    }
  }

  /** An aligned window is exactly the set of instants that truncate to its start. */
  lemma WindowOf(t: int, window: int, start: int)
    requires window > 0 && start == Truncate(start, window)
    ensures start <= t < start + window <==> Truncate(t, window) == start
  {
    if start <= t < start + window {
      TruncateMonotone(start, t, window);
      var q, n := t / window, start / window;
      assert window * n <= window * q;
      if q > n {
        MulMonotone(window, n + 1, q);
      }
      if q < n {
        MulMonotone(window, q + 1, n);
      }
    }
  }

  /** In every run, a fixed window admits at most the largest limit in each aligned window. */
  lemma FixedWindowInterval(calls: seq<Call>, first: int, key: string, window: int, most: int, start: int)
    requires Ordered(calls, first) && window > 0 && start == Truncate(start, window) && most >= 0
    requires FixedLength(calls, CellId(FixedWindow, key), window, most)
    ensures Admitted(EMPTY, calls, CellId(FixedWindow, key), start, start + window - 1) <= most
  {
    if Truncate(first, window) <= start {
      CounterBound(EMPTY, calls, first, key, window, most, start);
    } else {
      if first <= start + window - 1 {
        if start <= first {
          WindowOf(first, window, start);
        } else {
          TruncateMonotone(first, start, window);
        }
      }
      PastIsClosed(EMPTY, calls, first, CellId(FixedWindow, key), start, start + window - 1);
    }
  }

  // Sliding window

  ghost predicate LogHasWindow(c: Option<Cell>, window: int) {
    c.Some? ==> c.value.LogCell? && c.value.log.window == window
  }

  function EventsOf(c: Option<Cell>): seq<Event> {
    if c.Some? && c.value.LogCell? then c.value.log.events else []
  }

  /** Cost of the events in [lo, hi]. */
  function CostWithin(events: seq<Event>, lo: int, hi: int): int {
    if events == [] then 0
    else (if lo <= events[0].t <= hi then events[0].cost else 0) + CostWithin(events[1..], lo, hi)
  }

  lemma {:induction false} CostWithinAppend(a: seq<Event>, e: Event, lo: int, hi: int)
    ensures CostWithin(a + [e], lo, hi) == CostWithin(a, lo, hi) + (if lo <= e.t <= hi then e.cost else 0)
  {
    if a == [] {
      assert a + [e] == [e];
    } else {
      assert (a + [e])[1..] == a[1..] + [e];
      CostWithinAppend(a[1..], e, lo, hi);
    }
  }

  ghost predicate PositiveCosts(events: seq<Event>) {
    forall e | e in events :: e.cost > 0
  }

  /** Expiry up to `lo` loses no event of [lo, hi], and what is kept costs at least those events. */
  lemma {:induction false} KeepHoldsInterval(events: seq<Event>, cutoff: int, lo: int, hi: int)
    requires cutoff <= lo && PositiveCosts(events)
    ensures CostWithin(Keep(events, cutoff), lo, hi) == CostWithin(events, lo, hi) <= TotalCost(Keep(events, cutoff))
    ensures PositiveCosts(Keep(events, cutoff))
  {
    if events != [] {
      KeepHoldsInterval(events[1..], cutoff, lo, hi);
      var rest := Keep(events[1..], cutoff);
      if events[0].t >= cutoff {
        assert Keep(events, cutoff) == [events[0]] + rest;
        assert ([events[0]] + rest)[1..] == rest;
      } else {
        assert Keep(events, cutoff) == rest;
      }
    }
  }

  lemma {:induction false} LogBound(
    s: Store, calls: seq<Call>, clock: int, key: string, p: Params, lo: int, hi: int)
    requires Ordered(calls, clock) && hi == lo + DefaultWindow(p.window)
    requires FixedParams(calls, CellId(SlidingWindow, key), p) && p.limit >= 0
    requires LogHasWindow(Get(s, CellId(SlidingWindow, key)), DefaultWindow(p.window))
    requires PositiveCosts(EventsOf(Get(s, CellId(SlidingWindow, key))))
    requires CostWithin(EventsOf(Get(s, CellId(SlidingWindow, key))), lo, hi) <= p.limit
    ensures CostWithin(EventsOf(Get(s, CellId(SlidingWindow, key))), lo, hi)
            + Admitted(s, calls, CellId(SlidingWindow, key), lo, hi) <= p.limit
    decreases |calls|
  {
    var id := CellId(SlidingWindow, key);
    if calls != [] {
      var c := calls[0];
      var s' := After(s, c);
      ExecIsLocal(s, c.healthy, c.op, c.now, id);
      if c.now > hi {
        PastIsClosed(s', calls[1..], c.now, id, lo, hi);
      } else {
        if Accepts(c.healthy, c.op) && CellOf(c.op) == id {
          LogStepHoldsInterval(Get(s, id), c.op, c.now, lo, hi);
        }
        LogBound(s', calls[1..], c.now, key, p, lo, hi);
      }
    }
  }

  lemma LogStepHoldsInterval(c: Option<Cell>, op: Op, now: int, lo: int, hi: int)
    requires op.kind == SlidingWindow && op.cost > 0 && op.params.limit > 0
    requires hi == lo + DefaultWindow(op.params.window) && now <= hi
    requires LogHasWindow(c, DefaultWindow(op.params.window)) && PositiveCosts(EventsOf(c))
    ensures var (cell, d) := CellStep(c, op, now);
            && PositiveCosts(EventsOf(Some(cell))) && LogHasWindow(Some(cell), DefaultWindow(op.params.window))
            && CostWithin(EventsOf(Some(cell)), lo, hi)
               == CostWithin(EventsOf(c), lo, hi) + (if d.allowed && lo <= now then op.cost else 0)
            && (d.allowed ==> CostWithin(EventsOf(c), lo, hi) + op.cost <= op.params.limit)
  {
    hide Keep, CellStep, CostWithin, TotalCost, PositiveCosts;
    var window := DefaultWindow(op.params.window);
    var live := Keep(EventsOf(c), now - window);
    LogCellAppends(c, op, now);
    KeepHoldsInterval(EventsOf(c), now - window, lo, hi);
    CostWithinAppend(live, Event(now, op.cost), lo, hi);
    PositiveAppend(live, Event(now, op.cost));
    assert live + [] == live;
  }

  lemma PositiveAppend(events: seq<Event>, e: Event)
    requires PositiveCosts(events) && e.cost > 0
    ensures PositiveCosts(events + [e])
  {
  }

  /** A call expires the log and adds itself if what is left allows it. */
  lemma LogCellAppends(c: Option<Cell>, op: Op, now: int)
    requires op.kind == SlidingWindow && op.params.limit > 0 && LogHasWindow(c, DefaultWindow(op.params.window))
    ensures var live := Keep(EventsOf(c), now - DefaultWindow(op.params.window));
            var (cell, d) := CellStep(c, op, now);
            && LogHasWindow(Some(cell), DefaultWindow(op.params.window))
            && EventsOf(Some(cell)) == live + (if d.allowed then [Event(now, op.cost)] else [])
            && d.allowed == (TotalCost(live) + op.cost <= op.params.limit)
  {
    hide TotalCost;
    var live := Keep(EventsOf(c), now - DefaultWindow(op.params.window));
    assert EventsOf(c) == [] ==> live == [];
    assert live + [] == live;
  }

  /** In every run, a sliding window admits at most its limit in any closed interval of its length. */
  lemma SlidingWindowInterval(calls: seq<Call>, start: int, key: string, p: Params, lo: int)
    requires Ordered(calls, start) && p.limit >= 0
    requires FixedParams(calls, CellId(SlidingWindow, key), p)
    ensures Admitted(EMPTY, calls, CellId(SlidingWindow, key), lo, lo + DefaultWindow(p.window)) <= p.limit
  {
    LogBound(EMPTY, calls, start, key, p, lo, lo + DefaultWindow(p.window));
  }

  /** The admitted calls of a sliding-window cell, as events in call order. */
  function AdmittedEvents(s: Store, calls: seq<Call>, id: CellId): seq<Event>
    decreases |calls|
  {
    if calls == [] then []
    else
      (if Admits(s, calls[0], id) then [Event(calls[0].now, calls[0].op.cost)] else [])
      + AdmittedEvents(After(s, calls[0]), calls[1..], id)
  }

  /** The cutoff used by the last accepted call of the cell, or `before` when there is none. */
  function LastCutoff(calls: seq<Call>, id: CellId, window: int, before: int): int {
    if calls == [] then before
    else
      LastCutoff(calls[1..], id, window,
                 if CellOf(calls[0].op) == id && Accepts(calls[0].healthy, calls[0].op)
                 then calls[0].now - window else before)
  }

  /** One accepted call re-expires the admitted events and adds its own. */
  lemma LogCellStep(c: Option<Cell>, op: Op, now: int, seen: seq<Event>, cutoff: int)
    requires op.kind == SlidingWindow && op.cost > 0 && op.params.limit > 0
    requires LogHasWindow(c, DefaultWindow(op.params.window)) && EventsOf(c) == Keep(seen, cutoff)
    requires cutoff <= now - DefaultWindow(op.params.window)
    ensures var (cell, d) := CellStep(c, op, now);
            && LogHasWindow(Some(cell), DefaultWindow(op.params.window))
            && EventsOf(Some(cell))
               == Keep(seen + (if d.allowed then [Event(now, op.cost)] else []), now - DefaultWindow(op.params.window))
  {
    hide Keep, CellStep, TotalCost;
    var cut := now - DefaultWindow(op.params.window);
    LogCellAppends(c, op, now);
    KeepTwice(seen, cutoff, cut);
    KeepAppend(seen, [Event(now, op.cost)], cut);
    KeepOne(Event(now, op.cost), cut);
    assert seen + [] == seen && Keep(seen, cut) + [] == Keep(seen, cut);
  }

  /** The stored log is exactly the admitted events at or after the last cutoff, in time order. */
  lemma {:induction false} LogIsAdmittedTail(
    s: Store, calls: seq<Call>, clock: int, key: string, p: Params, seen: seq<Event>, cutoff: int)
    requires Ordered(calls, clock)
    requires FixedParams(calls, CellId(SlidingWindow, key), p)
    requires LogHasWindow(Get(s, CellId(SlidingWindow, key)), DefaultWindow(p.window))
    requires EventsOf(Get(s, CellId(SlidingWindow, key))) == Keep(seen, cutoff)
    requires cutoff <= clock - DefaultWindow(p.window)
    ensures var id := CellId(SlidingWindow, key);
            EventsOf(Get(Run(s, calls), id))
            == Keep(seen + AdmittedEvents(s, calls, id), LastCutoff(calls, id, DefaultWindow(p.window), cutoff))
    decreases |calls|
  {
    hide Exec, CellStep, Keep, TotalCost, Get;
    var id := CellId(SlidingWindow, key);
    var window := DefaultWindow(p.window);
    if calls == [] {
      assert seen + [] == seen;
    } else {
      var c := calls[0];
      var s' := After(s, c);
      ExecIsLocal(s, c.healthy, c.op, c.now, id);
      var rest := AdmittedEvents(s', calls[1..], id);
      if Accepts(c.healthy, c.op) && CellOf(c.op) == id {
        var cut := c.now - window;
        var added := if Admits(s, c, id) then [Event(c.now, c.op.cost)] else [];
        LogCellStep(Get(s, id), c.op, c.now, seen, cutoff);
        LogIsAdmittedTail(s', calls[1..], c.now, key, p, seen + added, cut);
        assert seen + (added + rest) == (seen + added) + rest;
      } else {
        LogIsAdmittedTail(s', calls[1..], c.now, key, p, seen, cutoff);
        assert [] + rest == rest;
      }
    }
  }
}

/** What the numbers in a decision mean for the next call. */
module Decisions {
  import opened Base
  import opened Limits
  import opened Store
  import opened Bounds
  import opened Retry
  import opened Admission

  function DecisionOf(s: Store, call: Call): Decision
    requires Accepts(call.healthy, call.op)
  {
    CellStep(Get(s, CellOf(call.op)), call.op, call.now).1
  }

  /** That is the decision the store returns; it allows exactly the admitted calls and gives them no RetryAfter. */
  lemma DecisionIsReturned(s: Store, call: Call)
    requires Accepts(call.healthy, call.op)
    ensures Exec(s, call.healthy, call.op, call.now).1 == Ok(DecisionOf(s, call))
    ensures DecisionOf(s, call).allowed <==> Admits(s, call, CellOf(call.op))
    ensures DecisionOf(s, call).allowed ==> DecisionOf(s, call).retryAfter == 0.0
  {
    hide CellStep;
    ExecIsLocal(s, call.healthy, call.op, call.now, CellOf(call.op));
    AllowedAtOnce(Get(s, CellOf(call.op)), call.op, call.now);
  }

  lemma AllowedAtOnce(c: Option<Cell>, op: Op, now: int)
    requires op.params.limit > 0
    ensures CellStep(c, op, now).1.allowed ==> CellStep(c, op, now).1.retryAfter == 0.0
  {
    hide Keep, TotalCost, Truncate, Rate, Refill;
  }

  /** A refused call is one to a store that is not healthy, or one whose cost or limit is not positive. */
  lemma RefusedIff(s: Store, call: Call)
    ensures var r := Exec(s, call.healthy, call.op, call.now).1;
            && (r == Err(RedisUnhealthy) <==> !call.healthy)
            && (r == Err(InvalidCostOrLimit) <==> call.healthy && (call.op.cost <= 0 || call.op.params.limit <= 0))
            && (r.Err? ==> After(s, call) == s)
  {
    hide BucketStep, CounterStep, LogStep;
  }

  /** The second call finds the cell as the first one left it. */
  lemma SecondDecision(s: Store, call: Call, next: Call)
    requires Accepts(call.healthy, call.op) && Accepts(next.healthy, next.op) && CellOf(next.op) == CellOf(call.op)
    ensures var (cell, d) := CellStep(Get(s, CellOf(call.op)), call.op, call.now);
            && Get(After(s, call), CellOf(call.op)) == Some(cell)
            && (Admits(After(s, call), next, CellOf(call.op)) <==> CellStep(Some(cell), next.op, next.now).1.allowed)
  {
    hide CellStep;
    ExecIsLocal(s, call.healthy, call.op, call.now, CellOf(call.op));
    ExecIsLocal(After(s, call), next.healthy, next.op, next.now, CellOf(call.op));
  }

  // Remaining

  lemma FloorFits(tokens: real, cost: int)
    ensures cost as real <= tokens <==> cost <= tokens.Floor
  {
  }

  lemma BucketRemaining(c: Option<Cell>, op: Op, next: Op, now: int)
    requires op.kind == next.kind == TokenBucket && op.params == next.params && op.params.limit > 0
    ensures var (cell, d) := CellStep(c, op, now);
            d.limit == op.params.limit && (CellStep(Some(cell), next, now).1.allowed <==> next.cost <= d.remaining)
  {
    hide Gain, Rate;
    var cell := CellStep(c, op, now).0;
    FloorFits(cell.bucket.tokens, next.cost);
  }

  lemma CounterRemaining(c: Option<Cell>, op: Op, next: Op, now: int)
    requires op.kind == next.kind == FixedWindow && op.params == next.params && op.params.limit > 0 && next.cost > 0
    ensures var (cell, d) := CellStep(c, op, now);
            d.limit == op.params.limit && (CellStep(Some(cell), next, now).1.allowed <==> next.cost <= d.remaining)
  {
  }

  lemma {:induction false} KeepAll(events: seq<Event>, cutoff: int)
    requires forall e | e in events :: e.t >= cutoff
    ensures Keep(events, cutoff) == events
  {
    if events != [] {
      assert events[0] in events && forall e | e in events[1..] :: e in events;
      KeepAll(events[1..], cutoff);
      assert events == [events[0]] + events[1..];
    }
  }

  lemma {:induction false} KeptAreLate(events: seq<Event>, cutoff: int)
    ensures forall e | e in Keep(events, cutoff) :: e.t >= cutoff
  {
    if events != [] {
      KeptAreLate(events[1..], cutoff);
    }
  }

  lemma LogRemaining(c: Option<Cell>, op: Op, next: Op, now: int)
    requires op.kind == next.kind == SlidingWindow && op.params == next.params && op.params.limit > 0 && next.cost > 0
    ensures var (cell, d) := CellStep(c, op, now);
            d.limit == op.params.limit && (CellStep(Some(cell), next, now).1.allowed <==> next.cost <= d.remaining)
  {
    hide Keep, TotalCost;
    var window := DefaultWindow(op.params.window);
    var prev := if c.Some? && c.value.LogCell? then Some(c.value.log) else None;
    var live := LiveEvents(prev, window, now);
    var (log, d) := LogStep(prev, op.params.limit, window, now, op.cost);
    if prev.Some? {
      KeptAreLate(prev.value.events, now - window);
    }
    KeepAll(log.events, now - window);
    TotalCostAppend(live, [Event(now, op.cost)]);
    KeepOne(Event(now, op.cost), now - window);
  }

  /** Remaining is exactly the largest cost that one more call at the same instant could have. */
  lemma RemainingIsWhatFits(s: Store, call: Call, next: Call)
    requires Accepts(call.healthy, call.op) && Accepts(next.healthy, next.op)
    requires CellOf(next.op) == CellOf(call.op) && next.op.params == call.op.params && next.now == call.now
    ensures DecisionOf(s, call).limit == call.op.params.limit
    ensures Admits(After(s, call), next, CellOf(call.op)) <==> next.op.cost <= DecisionOf(s, call).remaining
  {
    hide CellStep, Admits, After;
    SecondDecision(s, call, next);
    var c := Get(s, CellOf(call.op));
    match call.op.kind
    case TokenBucket => BucketRemaining(c, call.op, next.op, call.now);
    case FixedWindow => CounterRemaining(c, call.op, next.op, call.now);
    case SlidingWindow => LogRemaining(c, call.op, next.op, call.now);
  }

  // ResetAfter

  /** A token bucket that is left alone is full again exactly from ResetAfter on. */
  lemma BucketResetIsExact(s: Store, call: Call, next: Call, key: string, p: Params)
    requires Asks(call, CellId(TokenBucket, key), p) && Asks(next, CellId(TokenBucket, key), p)
    requires BucketWithin(Lookup(s.buckets, key), Capacity(p) as real, call.now as real)
    requires next.op.cost == Max(p.limit, p.burst) && call.now <= next.now
    ensures Admits(After(s, call), next, CellId(TokenBucket, key)) <==>
            next.now as real >= call.now as real + DecisionOf(s, call).resetAfter
  {
    hide Rate, Gain, Exec, Refill, Available, Admits, CellStep;
    var id, capacity, rate := CellId(TokenBucket, key), Capacity(p) as real, Rate(p);
    BucketAfterCall(s, call, call.now, key, p, rate);
    var b := Lookup(After(s, call).buckets, key).value;
    AdmitsIffAvailable(After(s, call), next, key, p);
    FullAgain(b, p, next.now as real);
    ResetOf(s, call, key, p);
  }

  lemma ResetOf(s: Store, call: Call, key: string, p: Params)
    requires Asks(call, CellId(TokenBucket, key), p)
    ensures var b := Lookup(After(s, call).buckets, key);
            b.Some? && b.value.last == call.now as real
            && DecisionOf(s, call).resetAfter == (Capacity(p) as real - b.value.tokens) / Rate(p)
  {
    hide Rate, Gain;
  }

  lemma FullAgain(b: Bucket, p: Params, t: real)
    requires p.limit > 0 && b.tokens <= Capacity(p) as real && b.last <= t
    ensures Capacity(p) as real <= Available(Some(b), p, t) <==>
            t >= b.last + (Capacity(p) as real - b.tokens) / Rate(p)
  {
    hide Rate, Gain;
    var capacity, rate := Capacity(p) as real, Rate(p);
    if b.tokens < capacity {
      RetryArithmetic(rate, capacity, b.tokens, capacity, b.last, t);
    } else {
      GainFromEarlier(rate, b.last, b.last, t);
      assert (capacity - b.tokens) / rate == 0.0;
    }
  }

  /** A fixed window in which something was admitted has room for the whole limit exactly from ResetAfter on. */
  lemma CounterResetIsExact(s: Store, call: Call, next: Call, key: string, p: Params)
    requires Asks(call, CellId(FixedWindow, key), p) && Asks(next, CellId(FixedWindow, key), p)
    requires next.op.cost == p.limit && call.now <= next.now && DecisionOf(s, call).remaining < p.limit
    ensures Admits(After(s, call), next, CellId(FixedWindow, key)) <==>
            next.now as real >= call.now as real + DecisionOf(s, call).resetAfter
  {
    hide CellStep, Admits, After;
    SecondDecision(s, call, next);
    CounterReset(Get(s, CellOf(call.op)), call.op, call.now, next.now);
  }

  lemma CounterReset(c: Option<Cell>, op: Op, now: int, t: int)
    requires op.kind == FixedWindow && op.params.limit > 0 && now <= t
    requires CellStep(c, op, now).1.remaining < op.params.limit
    ensures var (cell, d) := CellStep(c, op, now);
            CellStep(Some(cell), op.(cost := op.params.limit), t).1.allowed <==> t as real >= now as real + d.resetAfter
  {
    var window := DefaultWindow(op.params.window);
    var start := Truncate(now, window);
    AlignedStart(now, window);
    WindowOf(t, window, start);
    hide Truncate;
  }

  /**
   * A sliding window that is left alone has room for the whole limit after ResetAfter, and no earlier if it has just
   * admitted something.
   */
  lemma LogResetIsExact(s: Store, call: Call, next: Call, key: string, p: Params, from: int)
    requires Asks(call, CellId(SlidingWindow, key), p) && Asks(next, CellId(SlidingWindow, key), p)
    requires LogReached(Get(s, CellId(SlidingWindow, key)), DefaultWindow(p.window), from, call.now)
    requires next.op.cost == p.limit && from <= call.now <= next.now
    ensures var over := next.now as real > call.now as real + DecisionOf(s, call).resetAfter;
            && (over ==> Admits(After(s, call), next, CellId(SlidingWindow, key)))
            && (DecisionOf(s, call).allowed && !over ==> !Admits(After(s, call), next, CellId(SlidingWindow, key)))
  {
    hide CellStep, Admits, After, Get, LogReached;
    SecondDecision(s, call, next);
    LogReset(Get(s, CellOf(call.op)), call.op, call.now, next.now, from);
  }

  lemma {:induction false} KeepNone(events: seq<Event>, cutoff: int, from: int, clock: int)
    requires InTimeOrder(events, from, clock) && clock < cutoff
    ensures Keep(events, cutoff) == []
  {
    if events != [] {
      KeepNone(events[1..], cutoff, events[0].t, clock);
    }
  }

  lemma {:induction false} CostsAreCounted(events: seq<Event>, from: int, clock: int)
    requires InTimeOrder(events, from, clock)
    ensures TotalCost(events) >= 0 && (events != [] ==> TotalCost(events) > 0)
  {
    if events != [] {
      CostsAreCounted(events[1..], events[0].t, clock);
    }
  }

  lemma LogReset(c: Option<Cell>, op: Op, now: int, t: int, from: int)
    requires op.kind == SlidingWindow && op.params.limit > 0 && op.cost > 0 && from <= now <= t
    requires LogReached(c, DefaultWindow(op.params.window), from, now)
    ensures var (cell, d) := CellStep(c, op, now);
            var room, over := CellStep(Some(cell), op.(cost := op.params.limit), t).1.allowed,
                              t as real > now as real + d.resetAfter;
            (over ==> room) && (d.allowed && !over ==> !room)
  {
    hide Keep, TotalCost, InTimeOrder, CellStep;
    var window := DefaultWindow(op.params.window);
    var cell := CellStep(c, op, now).0;
    LogStepReached(c, op, now, from, now);
    LogCellAppends(c, op, now);
    var events := EventsOf(Some(cell));
    LogCellAppends(Some(cell), op.(cost := op.params.limit), t);
    ResetIsWindow(c, op, now);
    var live := Keep(events, t - window);
    if t > now + window {
      KeepNone(events, t - window, from, now);
      KeepNothing(t - window);
    } else if CellStep(c, op, now).1.allowed {
      KeepInTimeOrder(events, t - window, from, now);
      var before := Keep(EventsOf(c), now - window);
      KeepAppend(before, [Event(now, op.cost)], t - window);
      KeepOne(Event(now, op.cost), t - window);
      assert live == Keep(before, t - window) + [Event(now, op.cost)];
      CostsAreCounted(live, Max(from, t - window), now);
    }
  }

  lemma ResetIsWindow(c: Option<Cell>, op: Op, now: int)
    requires op.kind == SlidingWindow && op.params.limit > 0
    ensures CellStep(c, op, now).1.resetAfter == DefaultWindow(op.params.window) as real
  {
  }
}

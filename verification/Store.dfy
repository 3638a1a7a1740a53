/** InMemoryRedis: the shared store of limiter state, its calls and its pipeline. */
module Store {
  import opened Base
  import opened Limits

  datatype Kind = TokenBucket | FixedWindow | SlidingWindow

  datatype Op = Op(kind: Kind, key: string, params: Params, cost: int)

  datatype Error = RedisUnhealthy | InvalidCostOrLimit

  /** The three maps of the store. */
  datatype Store = Store(buckets: map<string, Bucket>, counters: map<string, Counter>, logs: map<string, Log>)

  const EMPTY: Store := Store(map[], map[], map[])

  /** The one place in the store that an operation can touch. */
  datatype CellId = CellId(kind: Kind, key: string)

  datatype Cell = BucketCell(bucket: Bucket) | CounterCell(counter: Counter) | LogCell(log: Log)

  function CellOf(op: Op): CellId {
    CellId(op.kind, op.key)
  }

  function Lookup<V>(m: map<string, V>, key: string): Option<V> {
    if key in m then Some(m[key]) else None
  }

  function Get(s: Store, id: CellId): Option<Cell> {
    match id.kind
    case TokenBucket => if id.key in s.buckets then Some(BucketCell(s.buckets[id.key])) else None
    case FixedWindow => if id.key in s.counters then Some(CounterCell(s.counters[id.key])) else None
    case SlidingWindow => if id.key in s.logs then Some(LogCell(s.logs[id.key])) else None
  }

  predicate Accepts(healthy: bool, op: Op) {
    healthy && op.cost > 0 && op.params.limit > 0
  }

  /** One store call: a refused call changes nothing. */
  function Exec(s: Store, healthy: bool, op: Op, now: int): (Store, Result<Decision, Error>) {
    if !healthy then (s, Err(RedisUnhealthy))
    else if op.cost <= 0 || op.params.limit <= 0 then (s, Err(InvalidCostOrLimit))
    else
      var window := DefaultWindow(op.params.window);
      match op.kind
      case TokenBucket =>
        var (b, d) := BucketStep(Lookup(s.buckets, op.key), op.params, now as real, op.cost);
        (s.(buckets := s.buckets[op.key := b]), Ok(d))
      case FixedWindow =>
        var (c, d) := CounterStep(Lookup(s.counters, op.key), op.params.limit, window, now, op.cost);
        (s.(counters := s.counters[op.key := c]), Ok(d))
      case SlidingWindow =>
        var (l, d) := LogStep(Lookup(s.logs, op.key), op.params.limit, window, now, op.cost);
        (s.(logs := s.logs[op.key := l]), Ok(d))
  }

  /** What an accepted call does to its own cell, whatever the rest of the store holds. */
  function CellStep(c: Option<Cell>, op: Op, now: int): (Cell, Decision)
    requires op.params.limit > 0
  {
    var window := DefaultWindow(op.params.window);
    match op.kind
    case TokenBucket =>
      var prev := if c.Some? && c.value.BucketCell? then Some(c.value.bucket) else None;
      var (b, d) := BucketStep(prev, op.params, now as real, op.cost);
      (BucketCell(b), d)
    case FixedWindow =>
      var prev := if c.Some? && c.value.CounterCell? then Some(c.value.counter) else None;
      var (n, d) := CounterStep(prev, op.params.limit, window, now, op.cost);
      (CounterCell(n), d)
    case SlidingWindow =>
      var prev := if c.Some? && c.value.LogCell? then Some(c.value.log) else None;
      var (l, d) := LogStep(prev, op.params.limit, window, now, op.cost);
      (LogCell(l), d)
  }

  /** A call reads and writes its own cell and no other. */
  lemma ExecIsLocal(s: Store, healthy: bool, op: Op, now: int, id: CellId)
    ensures Get(Exec(s, healthy, op, now).0, id) ==
            if Accepts(healthy, op) && id == CellOf(op) then Some(CellStep(Get(s, id), op, now).0) else Get(s, id)
    ensures Exec(s, healthy, op, now).1.Ok? <==> Accepts(healthy, op)
    ensures Accepts(healthy, op) ==> Exec(s, healthy, op, now).1 == Ok(CellStep(Get(s, CellOf(op)), op, now).1)
  {
    match op.kind {
      case TokenBucket =>
      case FixedWindow =>
      case SlidingWindow =>
    }
  }

  /** Stores that agree on every cell are the same store. */
  lemma SameCells(s: Store, t: Store)
    requires forall id :: Get(s, id) == Get(t, id)
    ensures s == t
  {
    forall k: string
      ensures k in s.buckets <==> k in t.buckets
      ensures k in s.buckets ==> s.buckets[k] == t.buckets[k]
      ensures k in s.counters <==> k in t.counters
      ensures k in s.counters ==> s.counters[k] == t.counters[k]
      ensures k in s.logs <==> k in t.logs
      ensures k in s.logs ==> s.logs[k] == t.logs[k]
    {
      assert Get(s, CellId(TokenBucket, k)) == Get(t, CellId(TokenBucket, k));
      assert Get(s, CellId(FixedWindow, k)) == Get(t, CellId(FixedWindow, k));
      assert Get(s, CellId(SlidingWindow, k)) == Get(t, CellId(SlidingWindow, k));
    }
    assert s.buckets == t.buckets && s.counters == t.counters && s.logs == t.logs;
  }

  /** A pipeline stops at its first error and keeps what it did before. */
  function ExecAll(s: Store, healthy: bool, ops: seq<Op>, now: int): (Store, Result<seq<Decision>, Error>) {
    if ops == [] then (s, Ok([]))
    else
      var init, last := ops[..|ops| - 1], ops[|ops| - 1];
      var (s1, done) := ExecAll(s, healthy, init, now);
      if done.Err? then (s1, done)
      else
        var (s2, r) := Exec(s1, healthy, last, now);
        (s2, if r.Ok? then Ok(done.value + [r.value]) else Err(r.error))
  }

  lemma {:induction false} ExecAllStopsAtError(s: Store, healthy: bool, ops: seq<Op>, n: nat, now: int)
    requires n <= |ops| && ExecAll(s, healthy, ops[..n], now).1.Err?
    ensures ExecAll(s, healthy, ops, now) == ExecAll(s, healthy, ops[..n], now)
    decreases |ops|
  {
    if n < |ops| {
      var init := ops[..|ops| - 1];
      assert init[..n] == ops[..n];
      ExecAllStopsAtError(s, healthy, init, n, now);
    } else {
      assert ops[..n] == ops;
    }
  }

  class InMemoryRedis {
    var tokenBuckets: map<string, Bucket>
    var fixedWindows: map<string, Counter>
    var slidingWindows: map<string, Log>
    var healthy: bool

    ghost function Contents(): Store
      reads this
    {
      Store(tokenBuckets, fixedWindows, slidingWindows)
    }

    constructor ()
      ensures Contents() == EMPTY && healthy
    {
      tokenBuckets, fixedWindows, slidingWindows, healthy := map[], map[], map[], true;
    }

    method ExecTokenBucket(key: string, params: Params, cost: int, now: int) returns (r: Result<Decision, Error>)
      modifies this`tokenBuckets
      ensures (Contents(), r) == Exec(old(Contents()), healthy, Op(TokenBucket, key, params, cost), now)
    {
      if !healthy {
        return Err(RedisUnhealthy);
      }
      if cost <= 0 || params.limit <= 0 {
        return Err(InvalidCostOrLimit);
      }
      var capacity := params.limit;
      if params.burst > capacity {
        capacity := params.burst;
      }
      var rate := Rate(params);
      var instant := now as real;
      var state := Bucket(capacity as real, instant);
      if key in tokenBuckets {
        state := tokenBuckets[key];
      }
      var tokens := state.tokens;
      if instant > state.last {
        tokens := tokens + Gain(rate, state.last, instant);
        if tokens > capacity as real {
          tokens := capacity as real;
        }
      }
      var allowed := cost as real <= tokens;
      if allowed {
        tokens := tokens - cost as real;
      }
      tokenBuckets := tokenBuckets[key := Bucket(tokens, instant)];
      var retryAfter := 0.0;
      if !allowed {
        retryAfter := (cost as real - tokens) / rate;
      }
      var resetAfter := (capacity as real - tokens) / rate;
      r := Ok(Decision(allowed, tokens.Floor, params.limit, resetAfter, retryAfter));
    }

    method ExecFixedWindow(key: string, params: Params, cost: int, now: int) returns (r: Result<Decision, Error>)
      modifies this`fixedWindows
      ensures (Contents(), r) == Exec(old(Contents()), healthy, Op(FixedWindow, key, params, cost), now)
    {
      if !healthy {
        return Err(RedisUnhealthy);
      }
      if cost <= 0 || params.limit <= 0 {
        return Err(InvalidCostOrLimit);
      }
      var window := DefaultWindow(params.window);
      var windowStart := Truncate(now, window);
      var state := Counter(windowStart, 0);
      if key in fixedWindows {
        state := fixedWindows[key];
      }
      if state.windowStart != windowStart {
        state := Counter(windowStart, 0);
      }
      var allowed := state.used + cost <= params.limit;
      if allowed {
        state := state.(used := state.used + cost);
      }
      fixedWindows := fixedWindows[key := state];
      var remaining := params.limit - state.used;
      if remaining < 0 {
        remaining := 0;
      }
      var resetAfter := windowStart + window - now;
      var retryAfter := if allowed then 0 else resetAfter;
      r := Ok(Decision(allowed, remaining, params.limit, resetAfter as real, retryAfter as real));
    }

    method ExecSlidingWindow(key: string, params: Params, cost: int, now: int) returns (r: Result<Decision, Error>)
      modifies this`slidingWindows
      ensures (Contents(), r) == Exec(old(Contents()), healthy, Op(SlidingWindow, key, params, cost), now)
    {
      hide Keep, TotalCost, BucketStep, CounterStep;
      if !healthy {
        return Err(RedisUnhealthy);
      }
      if cost <= 0 || params.limit <= 0 {
        return Err(InvalidCostOrLimit);
      }
      var window := DefaultWindow(params.window);
      var events: seq<Event> := [];
      if key in slidingWindows && slidingWindows[key].window == window {
        events := slidingWindows[key].events;
      }
      var buf := new Event[|events|](i requires 0 <= i < |events| => events[i]);
      assert buf[..] == events;
      KeepNothing(now - window);
      var kept, total := Compact(buf, now - window);
      events := buf[..kept];
      assert events == LiveEvents(Lookup(old(slidingWindows), key), window, now);
      var allowed := total + cost <= params.limit;
      if allowed {
        events := events + [Event(now, cost)];
        total := total + cost;
      }
      slidingWindows := slidingWindows[key := Log(window, events)];
      var remaining := params.limit - total;
      if remaining < 0 {
        remaining := 0;
      }
      var retryAfter := 0;
      if !allowed && |events| > 0 {
        retryAfter := events[0].t + window - now;
        if retryAfter < 0 {
          retryAfter := 0;
        }
      }
      r := Ok(Decision(allowed, remaining, params.limit, window as real, retryAfter as real));
    }

    /** InMemoryPipeline.Exec: the queued operations in order, up to the first error. */
    method ExecPipeline(ops: seq<Op>, now: int) returns (r: Result<seq<Decision>, Error>)
      modifies this`tokenBuckets, this`fixedWindows, this`slidingWindows
      ensures (Contents(), r) == ExecAll(old(Contents()), healthy, ops, now)
    {
      var decisions: seq<Decision> := [];
      for i := 0 to |ops|
        invariant (Contents(), Ok(decisions)) == ExecAll(old(Contents()), healthy, ops[..i], now)
      {
        assert ops[..i + 1][..i] == ops[..i];
        var op := ops[i];
        var one: Result<Decision, Error>;
        match op.kind {
          case TokenBucket => one := ExecTokenBucket(op.key, op.params, op.cost, now);
          case FixedWindow => one := ExecFixedWindow(op.key, op.params, op.cost, now);
          case SlidingWindow => one := ExecSlidingWindow(op.key, op.params, op.cost, now);
        }
        if one.Err? {
          ExecAllStopsAtError(old(Contents()), healthy, ops, i + 1, now);
          return Err(one.error);
        }
        decisions := decisions + [one.value];
      }
      assert ops[..|ops|] == ops;
      r := Ok(decisions);
    }
  }
}

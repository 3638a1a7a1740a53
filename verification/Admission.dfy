/** Exactly what each algorithm admits, read off the calls it admitted before, and what its decisions mean. */
module Admission {
  import opened Base
  import opened Limits
  import opened Store
  import opened Bounds

  /** An accepted call of the cell. */
  predicate Asks(c: Call, id: CellId, p: Params) {
    CellOf(c.op) == id && c.op.params == p && Accepts(c.healthy, c.op)
  }

  /** Before the first call of a run nothing was admitted, so where an interval starts before it does not matter. */
  lemma {:induction false} StartsAnywhere(s: Store, calls: seq<Call>, clock: int, id: CellId, lo: int, hi: int)
    requires Ordered(calls, clock) && lo <= clock
    ensures Admitted(s, calls, id, lo, hi) == Admitted(s, calls, id, clock, hi)
    decreases |calls|
  {
    hide Exec, Admits;
    if calls != [] {
      var t := calls[0].now;
      StartsAnywhere(After(s, calls[0]), calls[1..], t, id, lo, hi);
      StartsAnywhere(After(s, calls[0]), calls[1..], t, id, clock, hi);
    }
  }

  // Token bucket

  /** `x` more tokens at `now` fit what was admitted since `t`. */
  ghost predicate FitsSince(
    s: Store, calls: seq<Call>, id: CellId, x: real, capacity: real, rate: real, t: int, now: int)
  {
    x + Admitted(s, calls, id, t, now) as real <= capacity + Gain(rate, t as real, now as real)
  }

  /** They fit what a given bucket held, and every interval that ends now. */
  ghost predicate Fits(
    s: Store, calls: seq<Call>, id: CellId, b: Option<Bucket>, x: real, capacity: real, rate: real,
    clock: int, now: int)
  {
    && (b.Some? ==> x + Admitted(s, calls, id, clock, now) as real
                    <= b.value.tokens + Gain(rate, b.value.last, now as real))
    && (forall t | t <= now :: FitsSince(s, calls, id, x, capacity, rate, t, now))
  }

  lemma NothingAdmitted(s: Store, id: CellId, lo: int, hi: int)
    ensures Admitted(s, [], id, lo, hi) == 0 && Run(s, []) == s
  {
  }

  lemma GainFromEarlier(rate: real, t: real, u: real, now: real)
    requires rate > 0.0 && t <= u <= now
    ensures Gain(rate, u, now) <= Gain(rate, t, now) && Gain(rate, now, now) == 0.0
  {
    hide Gain;
    GainSplits(rate, t, u, now);
    GainSplits(rate, now, now, now);
  }

  lemma FitsNow(s: Store, id: CellId, p: Params, b: Option<Bucket>, x: real, rate: real, clock: int, now: int)
    requires p.limit > 0 && rate == Rate(p) && clock <= now
    requires BucketWithin(b, Capacity(p) as real, clock as real)
    ensures x <= Available(b, p, now as real) <==> Fits(s, [], id, b, x, Capacity(p) as real, rate, clock, now)
  {
    hide Rate, Gain;
    var capacity := Capacity(p) as real;
    forall t: int
      ensures FitsSince(s, [], id, x, capacity, rate, t, now) <==>
              x <= capacity + Gain(rate, t as real, now as real)
      ensures t <= now && x <= capacity ==> FitsSince(s, [], id, x, capacity, rate, t, now)
    {
      NothingAdmitted(s, id, t, now);
      if t <= now {
        GainFromEarlier(rate, t as real, now as real, now as real);
      }
    }
    NothingAdmitted(s, id, clock, now);
    GainFromEarlier(rate, now as real, now as real, now as real);
    assert FitsSince(s, [], id, x, capacity, rate, now, now) <==> x <= capacity;
  }

  /** What was admitted since `t` by a run and by the call before it. */
  lemma AdmittedSplits(s: Store, calls: seq<Call>, id: CellId, t: int, now: int)
    requires calls != [] && calls[0].now <= now
    ensures Admitted(s, calls, id, t, now) ==
            (if Admits(s, calls[0], id) && t <= calls[0].now then calls[0].op.cost else 0)
            + Admitted(After(s, calls[0]), calls[1..], id, t, now)
  {
    hide Admits, Exec;
  }

  /** A call that takes `taken` of what it finds hands the condition on to the rest of the run. */
  lemma FitsAfterCall(
    s: Store, calls: seq<Call>, id: CellId, b: Option<Bucket>, available: real, taken: real, x: real, capacity: real,
    rate: real, clock: int, now: int)
    requires calls != [] && Ordered(calls, clock) && calls[0].now <= now && rate > 0.0 && taken >= 0.0
    requires taken == (if Admits(s, calls[0], id) then calls[0].op.cost as real else 0.0)
    requires BucketWithin(b, capacity, clock as real)
    requires var t0 := calls[0].now as real;
             available == match b case None => capacity
                                  case Some(k) => Refill(k.tokens, rate, capacity, k.last, t0)
    ensures Fits(s, calls, id, b, x, capacity, rate, clock, now) <==>
            Fits(After(s, calls[0]), calls[1..], id, Some(Bucket(available - taken, calls[0].now as real)), x, capacity,
                 rate, calls[0].now, now)
  {
    hide Gain, Admits, Exec, Admitted;
    var s', rest, t0 := After(s, calls[0]), calls[1..], calls[0].now;
    var all := Admitted(s', rest, id, t0, now) as real;
    var room := x + all + taken <= capacity + Gain(rate, t0 as real, now as real);
    forall t: int
      ensures t <= t0 ==> (room ==> FitsSince(s, calls, id, x, capacity, rate, t, now))
      ensures t0 < t ==> (FitsSince(s, calls, id, x, capacity, rate, t, now) <==>
                          FitsSince(s', rest, id, x, capacity, rate, t, now))
      ensures t <= now && FitsSince(s, calls, id, x, capacity, rate, t, now) ==>
              FitsSince(s', rest, id, x, capacity, rate, t, now)
    {
      AdmittedSplits(s, calls, id, t, now);
      if t <= t0 {
        StartsAnywhere(s', rest, t0, id, t, now);
        GainFromEarlier(rate, t as real, t0 as real, now as real);
      }
    }
    AdmittedSplits(s, calls, id, t0, now);
    assert FitsSince(s, calls, id, x, capacity, rate, t0, now) <==> room;
    AdmittedSplits(s, calls, id, clock, now);
    StartsAnywhere(s', rest, t0, id, clock, now);
    if b.Some? {
      GainSplits(rate, b.value.last, t0 as real, now as real);
    }
  }

  lemma {:induction false} FitsIff(
    s: Store, calls: seq<Call>, clock: int, key: string, p: Params, rate: real, now: int, x: real)
    requires Ordered(calls, clock) && EndsBy(calls, clock, now) && p.limit > 0 && rate == Rate(p)
    requires FixedParams(calls, CellId(TokenBucket, key), p)
    requires BucketWithin(Lookup(s.buckets, key), Capacity(p) as real, clock as real)
    ensures x <= Available(Lookup(Run(s, calls).buckets, key), p, now as real) <==>
            Fits(s, calls, CellId(TokenBucket, key), Lookup(s.buckets, key), x, Capacity(p) as real, rate, clock, now)
    decreases |calls|
  {
    hide Rate, Gain, Exec, CellStep, Fits, Admits, Refill;
    var id, capacity, b := CellId(TokenBucket, key), Capacity(p) as real, Lookup(s.buckets, key);
    if calls == [] {
      FitsNow(s, id, p, b, x, rate, clock, now);
    } else {
      var c, s' := calls[0], After(s, calls[0]);
      assert c in calls && forall d | d in calls[1..] :: d in calls;
      BucketAfterCall(s, c, clock, key, p, rate);
      FitsIff(s', calls[1..], c.now, key, p, rate, now, x);
      if Asks(c, id, p) {
        var taken := if Admits(s, c, id) then c.op.cost as real else 0.0;
        FitsAfterCall(s, calls, id, b, Available(b, p, c.now as real), taken, x, capacity, rate, clock, now);
      } else {
        FitsAfterOther(s, calls, id, b, x, capacity, rate, clock, now);
      }
    }
  }

  /** What a call leaves of the bucket of a key. */
  lemma BucketAfterCall(s: Store, c: Call, clock: int, key: string, p: Params, rate: real)
    requires p.limit > 0 && rate == Rate(p) && clock <= c.now
    requires CellOf(c.op) == CellId(TokenBucket, key) ==> c.op.params == p
    requires BucketWithin(Lookup(s.buckets, key), Capacity(p) as real, clock as real)
    ensures var id, b, b' := CellId(TokenBucket, key), Lookup(s.buckets, key), Lookup(After(s, c).buckets, key);
            && BucketWithin(b', Capacity(p) as real, c.now as real)
            && (!Asks(c, id, p) ==> b' == b && !Admits(s, c, id))
            && (Asks(c, id, p) ==>
                  var available := Available(b, p, c.now as real);
                  var taken := if Admits(s, c, id) then c.op.cost as real else 0.0;
                  && b' == Some(Bucket(available - taken, c.now as real)) && taken >= 0.0
                  && (Admits(s, c, id) <==> c.op.cost as real <= available)
                  && available ==
                     match b case None => Capacity(p) as real
                             case Some(k) => Refill(k.tokens, rate, Capacity(p) as real, k.last, c.now as real))
  {
    hide Rate, Gain, CellStep;
    var id := CellId(TokenBucket, key);
    ExecIsLocal(s, c.healthy, c.op, c.now, id);
    assert Lookup(s.buckets, key) == BucketOf(Get(s, id));
    assert Lookup(After(s, c).buckets, key) == BucketOf(Get(After(s, c), id));
    if Asks(c, id, p) {
      BucketCellStep(Get(s, id), c.op, c.now);
    }
  }

  lemma FitsAfterOther(
    s: Store, calls: seq<Call>, id: CellId, b: Option<Bucket>, x: real, capacity: real, rate: real,
    clock: int, now: int)
    requires calls != [] && Ordered(calls, clock) && calls[0].now <= now && !Admits(s, calls[0], id)
    ensures Fits(s, calls, id, b, x, capacity, rate, clock, now) <==>
            Fits(After(s, calls[0]), calls[1..], id, b, x, capacity, rate, calls[0].now, now)
  {
    hide Gain, Admits, Exec, Admitted;
    var s', rest := After(s, calls[0]), calls[1..];
    forall t: int
      ensures FitsSince(s, calls, id, x, capacity, rate, t, now) <==>
              FitsSince(s', rest, id, x, capacity, rate, t, now)
    {
      AdmittedSplits(s, calls, id, t, now);
    }
    AdmittedSplits(s, calls, id, clock, now);
    StartsAnywhere(s', rest, calls[0].now, id, clock, now);
  }

  /** The most a bucket may admit from `t` to `now`: its capacity, and Limit for every window. */
  function Allowance(p: Params, t: int, now: int): real {
    Max(p.limit, p.burst) as real + (p.limit * (now - t)) as real / DefaultWindow(p.window) as real
  }

  lemma FitsAllowance(s: Store, calls: seq<Call>, id: CellId, cost: int, p: Params, t: int, now: int)
    requires p.limit > 0
    ensures FitsSince(s, calls, id, cost as real, Capacity(p) as real, Rate(p), t, now) <==>
            (cost + Admitted(s, calls, id, t, now)) as real <= Allowance(p, t, now)
  {
    hide Rate, Gain, Admitted;
    RateTimes(p, t, now);
  }

  /**
   * The token bucket, exactly: after any run from the empty store an accepted call is admitted if and only if, for
   * every earlier instant, its cost and what was admitted since then are within the allowance of that time.
   */
  lemma TokenBucketAdmitsIff(calls: seq<Call>, start: int, key: string, p: Params, call: Call)
    requires Ordered(calls, start) && EndsBy(calls, start, call.now)
    requires FixedParams(calls, CellId(TokenBucket, key), p) && Asks(call, CellId(TokenBucket, key), p)
    ensures var id, now := CellId(TokenBucket, key), call.now;
            Admits(Run(EMPTY, calls), call, id) <==>
            forall t | t <= now ::
              (call.op.cost + Admitted(EMPTY, calls, id, t, now)) as real <= Allowance(p, t, now)
  {
    hide Rate, Admits, Run, Admitted, Allowance, FitsSince, Capacity;
    var id, now := CellId(TokenBucket, key), call.now;
    var x, capacity, rate := call.op.cost as real, Capacity(p) as real, Rate(p);
    AdmitsIffFits(calls, start, key, p, call);
    forall t: int
      ensures FitsSince(EMPTY, calls, id, x, capacity, rate, t, now) <==>
              (call.op.cost + Admitted(EMPTY, calls, id, t, now)) as real <= Allowance(p, t, now)
    {
      FitsAllowance(EMPTY, calls, id, call.op.cost, p, t, now);
    }
  }

  lemma AdmitsIffFits(calls: seq<Call>, start: int, key: string, p: Params, call: Call)
    requires Ordered(calls, start) && EndsBy(calls, start, call.now)
    requires FixedParams(calls, CellId(TokenBucket, key), p) && Asks(call, CellId(TokenBucket, key), p)
    ensures var id, x, capacity, rate := CellId(TokenBucket, key), call.op.cost as real, Capacity(p) as real, Rate(p);
            Admits(Run(EMPTY, calls), call, id) <==>
            forall t | t <= call.now :: FitsSince(EMPTY, calls, id, x, capacity, rate, t, call.now)
  {
    hide Rate, Run, Admits, BucketWithin, Available, Capacity, FitsSince;
    EmptyWithin(key, p, start);
    FitsIff(EMPTY, calls, start, key, p, Rate(p), call.now, call.op.cost as real);
    TokensWithin(calls, start, key, p, call.now);
    AdmitsIffAvailable(Run(EMPTY, calls), call, key, p);
  }

  lemma AdmitsIffAvailable(s: Store, call: Call, key: string, p: Params)
    requires Asks(call, CellId(TokenBucket, key), p)
    requires BucketWithin(Lookup(s.buckets, key), Capacity(p) as real, call.now as real)
    ensures Admits(s, call, CellId(TokenBucket, key)) <==>
            call.op.cost as real <= Available(Lookup(s.buckets, key), p, call.now as real)
  {
    hide Rate, Gain, Admits, Exec, Available, Refill;
    BucketAfterCall(s, call, call.now, key, p, Rate(p));
  }

  lemma EmptyWithin(key: string, p: Params, clock: int)
    ensures Lookup(EMPTY.buckets, key).None?
    ensures BucketWithin(Lookup(EMPTY.buckets, key), Capacity(p) as real, clock as real)
  {
  }

  lemma TokensWithin(calls: seq<Call>, start: int, key: string, p: Params, now: int)
    requires Ordered(calls, start) && EndsBy(calls, start, now) && p.limit > 0
    requires FixedParams(calls, CellId(TokenBucket, key), p)
    ensures BucketWithin(Lookup(Run(EMPTY, calls).buckets, key), Capacity(p) as real, now as real)
  {
    RunsWithin(EMPTY, calls, start, key, p, now);
  }

  lemma {:induction false} RunsWithin(s: Store, calls: seq<Call>, clock: int, key: string, p: Params, now: int)
    requires Ordered(calls, clock) && EndsBy(calls, clock, now) && p.limit > 0
    requires FixedParams(calls, CellId(TokenBucket, key), p)
    requires BucketWithin(Lookup(s.buckets, key), Capacity(p) as real, clock as real)
    ensures BucketWithin(Lookup(Run(s, calls).buckets, key), Capacity(p) as real, now as real)
    decreases |calls|
  {
    hide Rate, Gain, Exec, CellStep, Admits, Refill;
    if calls != [] {
      assert calls[0] in calls && forall d | d in calls[1..] :: d in calls;
      BucketAfterCall(s, calls[0], clock, key, p, Rate(p));
      RunsWithin(After(s, calls[0]), calls[1..], calls[0].now, key, p, now);
    }
  }

  // Fixed window

  lemma {:induction false} UsedIsAdmitted(
    s: Store, calls: seq<Call>, clock: int, key: string, window: int, most: int, now: int, start: int)
    requires Ordered(calls, clock) && EndsBy(calls, clock, now) && window > 0 && start == Truncate(now, window)
    requires FixedLength(calls, CellId(FixedWindow, key), window, most)
    requires CounterBehind(Get(s, CellId(FixedWindow, key)), window, clock)
    ensures var id := CellId(FixedWindow, key);
            UsedIn(Get(Run(s, calls), id), start)
            == UsedIn(Get(s, id), start) + Admitted(s, calls, id, start, now)
    decreases |calls|
  {
    hide Exec, CellStep, Admits, Get, CounterBehind, UsedIn;
    var id := CellId(FixedWindow, key);
    if calls != [] {
      var c := calls[0];
      assert c in calls && forall d | d in calls[1..] :: d in calls;
      UsedAfterCall(s, c, clock, key, window, now, start);
      UsedIsAdmitted(After(s, c), calls[1..], c.now, key, window, most, now, start);
    }
  }

  lemma UsedAfterCall(s: Store, c: Call, clock: int, key: string, window: int, now: int, start: int)
    requires window > 0 && clock <= c.now <= now && start == Truncate(now, window)
    requires CellOf(c.op) == CellId(FixedWindow, key) ==> DefaultWindow(c.op.params.window) == window
    requires CounterBehind(Get(s, CellId(FixedWindow, key)), window, clock)
    ensures var id := CellId(FixedWindow, key);
            && CounterBehind(Get(After(s, c), id), window, c.now)
            && UsedIn(Get(After(s, c), id), start)
               == UsedIn(Get(s, id), start) + (if Admits(s, c, id) && start <= c.now then c.op.cost else 0)
  {
    hide Exec, CellStep, Admits, Get, CounterBehind, UsedIn;
    WindowAt(c.now, now, window);
    CounterAfterCall(s, c, clock, key, window, start);
  }

  /** An earlier instant is in the aligned window of a later one, or before it. */
  lemma WindowAt(t: int, now: int, window: int)
    requires window > 0 && t <= now
    ensures Truncate(t, window) == Truncate(now, window) <==> Truncate(now, window) <= t
    ensures Truncate(t, window) <= Truncate(now, window)
  {
    TruncateMonotone(t, now, window);
    AlignedStart(now, window);
    WindowOf(t, window, Truncate(now, window));
  }

  /** A call adds its cost to the window it falls into if it is admitted, and leaves no other window behind. */
  lemma CounterAfterCall(s: Store, c: Call, clock: int, key: string, window: int, start: int)
    requires window > 0 && clock <= c.now && Truncate(c.now, window) <= start
    requires CellOf(c.op) == CellId(FixedWindow, key) ==> DefaultWindow(c.op.params.window) == window
    requires CounterBehind(Get(s, CellId(FixedWindow, key)), window, clock)
    ensures var id, s' := CellId(FixedWindow, key), After(s, c);
            && CounterBehind(Get(s', id), window, c.now)
            && UsedIn(Get(s', id), start) == UsedIn(Get(s, id), start)
               + (if Admits(s, c, id) && Truncate(c.now, window) == start then c.op.cost else 0)
            && (CellOf(c.op) == id && Accepts(c.healthy, c.op) ==>
                  (Admits(s, c, id) <==>
                   UsedIn(Get(s, id), Truncate(c.now, window)) + c.op.cost <= c.op.params.limit))
  {
    TruncateMonotone(clock, c.now, window);
    ExecIsLocal(s, c.healthy, c.op, c.now, CellId(FixedWindow, key));
    hide Truncate;
  }

  /**
   * The fixed window, exactly: an accepted call is admitted if and only if its cost and what was admitted before in its
   * aligned window are at most its limit.
   */
  lemma FixedWindowAdmitsIff(calls: seq<Call>, start: int, key: string, window: int, most: int, call: Call)
    requires Ordered(calls, start) && EndsBy(calls, start, call.now) && window > 0
    requires FixedLength(calls, CellId(FixedWindow, key), window, most)
    requires Asks(call, CellId(FixedWindow, key), call.op.params) && DefaultWindow(call.op.params.window) == window
    ensures var id, now := CellId(FixedWindow, key), call.now;
            Admits(Run(EMPTY, calls), call, id) <==>
            Admitted(EMPTY, calls, id, Truncate(now, window), now) + call.op.cost <= call.op.params.limit
  {
    hide Exec, CellStep, Admits, Run, Admitted;
    var id, now := CellId(FixedWindow, key), call.now;
    UsedIsAdmitted(EMPTY, calls, start, key, window, most, now, Truncate(now, window));
    RunsBehind(EMPTY, calls, start, key, window, most, now);
    CounterAfterCall(Run(EMPTY, calls), call, now, key, window, Truncate(now, window));
  }

  lemma {:induction false} RunsBehind(
    s: Store, calls: seq<Call>, clock: int, key: string, window: int, most: int, now: int)
    requires Ordered(calls, clock) && EndsBy(calls, clock, now) && window > 0
    requires FixedLength(calls, CellId(FixedWindow, key), window, most)
    requires CounterBehind(Get(s, CellId(FixedWindow, key)), window, clock)
    ensures CounterBehind(Get(Run(s, calls), CellId(FixedWindow, key)), window, now)
    decreases |calls|
  {
    hide Exec, CellStep, Admits, Get;
    if calls == [] {
      TruncateMonotone(clock, now, window);
    } else {
      var c := calls[0];
      assert c in calls && forall d | d in calls[1..] :: d in calls;
      CounterAfterCall(s, c, clock, key, window, Truncate(c.now, window));
      RunsBehind(After(s, c), calls[1..], c.now, key, window, most, now);
    }
  }

  // Sliding window

  lemma {:induction false} AdmittedIsKept(s: Store, calls: seq<Call>, clock: int, id: CellId, cutoff: int, now: int)
    requires Ordered(calls, clock) && EndsBy(calls, clock, now)
    ensures TotalCost(Keep(AdmittedEvents(s, calls, id), cutoff)) == Admitted(s, calls, id, cutoff, now)
    decreases |calls|
  {
    hide Exec, Admits, Keep, TotalCost;
    KeepNothing(cutoff);
    if calls != [] {
      var c := calls[0];
      assert c in calls && forall d | d in calls[1..] :: d in calls;
      AdmittedIsKept(After(s, c), calls[1..], c.now, id, cutoff, now);
      var rest := AdmittedEvents(After(s, c), calls[1..], id);
      if Admits(s, c, id) {
        KeepAppend([Event(c.now, c.op.cost)], rest, cutoff);
        KeepOne(Event(c.now, c.op.cost), cutoff);
        TotalCostAppend(Keep([Event(c.now, c.op.cost)], cutoff), Keep(rest, cutoff));
        assert [] + Keep(rest, cutoff) == Keep(rest, cutoff);
      } else {
        assert [] + rest == rest;
      }
    }
  }

  lemma {:induction false} CutoffBehind(calls: seq<Call>, clock: int, id: CellId, window: int, before: int, now: int)
    requires EndsBy(calls, clock, now) && before <= now - window
    ensures LastCutoff(calls, id, window, before) <= now - window
    decreases |calls|
  {
    if calls != [] {
      assert calls[0] in calls && forall d | d in calls[1..] :: d in calls;
      var asks := CellOf(calls[0].op) == id && Accepts(calls[0].healthy, calls[0].op);
      CutoffBehind(calls[1..], clock, id, window, if asks then calls[0].now - window else before, now);
    }
  }

  /**
   * The sliding window, exactly: an accepted call is admitted if and only if its cost and what was admitted in the last
   * window, both ends included, are at most the limit.
   */
  lemma SlidingWindowAdmitsIff(calls: seq<Call>, start: int, key: string, p: Params, call: Call)
    requires Ordered(calls, start) && EndsBy(calls, start, call.now)
    requires FixedParams(calls, CellId(SlidingWindow, key), p) && Asks(call, CellId(SlidingWindow, key), p)
    ensures var id, now := CellId(SlidingWindow, key), call.now;
            Admits(Run(EMPTY, calls), call, id) <==>
            Admitted(EMPTY, calls, id, now - DefaultWindow(p.window), now) + call.op.cost <= p.limit
  {
    hide Exec, CellStep, Run, Keep, TotalCost, Admitted, AdmittedEvents, LastCutoff;
    var id, now, window := CellId(SlidingWindow, key), call.now, DefaultWindow(p.window);
    var s, cut := Run(EMPTY, calls), start - window;
    KeepNothing(cut);
    LogIsAdmittedTail(EMPTY, calls, start, key, p, [], cut);
    RunsKeepWindow(EMPTY, calls, key, p);
    CutoffBehind(calls, start, id, window, cut, now);
    var seen := AdmittedEvents(EMPTY, calls, id);
    assert [] + seen == seen;
    KeepTwice(seen, LastCutoff(calls, id, window, cut), now - window);
    AdmittedIsKept(EMPTY, calls, start, id, now - window, now);
    ExecIsLocal(s, call.healthy, call.op, now, id);
    LogCellAppends(Get(s, id), call.op, now);
  }

  lemma {:induction false} RunsKeepWindow(s: Store, calls: seq<Call>, key: string, p: Params)
    requires FixedParams(calls, CellId(SlidingWindow, key), p)
    requires LogHasWindow(Get(s, CellId(SlidingWindow, key)), DefaultWindow(p.window))
    ensures LogHasWindow(Get(Run(s, calls), CellId(SlidingWindow, key)), DefaultWindow(p.window))
    decreases |calls|
  {
    hide Exec, CellStep, Keep, TotalCost;
    if calls != [] {
      var c, id := calls[0], CellId(SlidingWindow, key);
      assert c in calls && forall d | d in calls[1..] :: d in calls;
      ExecIsLocal(s, c.healthy, c.op, c.now, id);
      if Accepts(c.healthy, c.op) && CellOf(c.op) == id {
        LogCellAppends(Get(s, id), c.op, c.now);
      }
      RunsKeepWindow(After(s, c), calls[1..], key, p);
    }
  }

  /** A call with another window length counts no earlier event and starts the log anew. */
  lemma ChangedWindowStartsAnew(s: Store, call: Call, key: string)
    requires Asks(call, CellId(SlidingWindow, key), call.op.params) && key in s.logs
    requires s.logs[key].window != DefaultWindow(call.op.params.window)
    ensures var id := CellId(SlidingWindow, key);
            && (Admits(s, call, id) <==> call.op.cost <= call.op.params.limit)
            && EventsOf(Get(After(s, call), id)) ==
               (if Admits(s, call, id) then [Event(call.now, call.op.cost)] else [])
  {
    KeepNothing(0);
  }
}

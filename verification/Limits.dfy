/** The three limiting algorithms as functions of the state kept for one key. */
module Limits {
  import opened Base

  datatype Params = Params(limit: int, window: int, burst: int)

  /** Durations in a decision are exact nanoseconds. */
  datatype Decision = Decision(allowed: bool, remaining: int, limit: int, resetAfter: real, retryAfter: real)

  /** Token bucket state: tokens held at the instant of the last call. */
  datatype Bucket = Bucket(tokens: real, last: real)

  /** Fixed window state: cost used in the aligned window that starts at `windowStart`. */
  datatype Counter = Counter(windowStart: int, used: int)

  datatype Event = Event(t: int, cost: int)

  /** Sliding window state: the admitted events that may still count. */
  datatype Log = Log(window: int, events: seq<Event>)

  // Token bucket

  function Capacity(p: Params): int {
    Max(p.limit, p.burst)
  }

  /** Tokens gained per nanosecond. */
  function Rate(p: Params): (rate: real)
    requires p.limit > 0
    ensures rate > 0.0
  {
    p.limit as real / DefaultWindow(p.window) as real
  }

  /** Tokens gained between two instants. */
  function Gain(rate: real, from: real, to: real): (gain: real)
    ensures rate > 0.0 && from <= to ==> gain >= 0.0
  {
    rate * (to - from)
  }

  lemma GainSplits(rate: real, a: real, b: real, c: real)
    ensures Gain(rate, a, c) == Gain(rate, a, b) + Gain(rate, b, c)
  {
  }

  function Refill(tokens: real, rate: real, capacity: real, from: real, to: real): real {
    if to > from then
      var grown := tokens + Gain(rate, from, to);
      if grown <= capacity then grown else capacity
    else
      tokens
  }

  /** The tokens a call at `now` finds. */
  function Available(b: Option<Bucket>, p: Params, now: real): real
    requires p.limit > 0
  {
    match b
    case None => Capacity(p) as real
    case Some(bucket) => Refill(bucket.tokens, Rate(p), Capacity(p) as real, bucket.last, now)
  }

  function BucketStep(b: Option<Bucket>, p: Params, now: real, cost: int): (Bucket, Decision)
    requires p.limit > 0
  {
    var available := Available(b, p, now);
    var allowed := cost as real <= available;
    var tokens := if allowed then available - cost as real else available;
    var retryAfter := if allowed then 0.0 else (cost as real - tokens) / Rate(p);
    (Bucket(tokens, now),
     Decision(allowed, tokens.Floor, p.limit, (Capacity(p) as real - tokens) / Rate(p), retryAfter))
  }

  // Fixed window

  /** Cost already used in the aligned window of `now`. */
  function UsedAt(c: Option<Counter>, window: int, now: int): int
    requires window > 0
  {
    if c.Some? && c.value.windowStart == Truncate(now, window) then c.value.used else 0
  }

  function CounterStep(c: Option<Counter>, limit: int, window: int, now: int, cost: int): (Counter, Decision)
    requires window > 0
  {
    var start := Truncate(now, window);
    var before := UsedAt(c, window, now);
    var allowed := before + cost <= limit;
    var used := if allowed then before + cost else before;
    var resetAfter := (start + window - now) as real;
    (Counter(start, used),
     Decision(allowed, Max(0, limit - used), limit, resetAfter, if allowed then 0.0 else resetAfter))
  }

  // Sliding window

  /** The events at or after `cutoff`, in order. */
  function Keep(events: seq<Event>, cutoff: int): seq<Event> {
    if events == [] then []
    else (if events[0].t >= cutoff then [events[0]] else []) + Keep(events[1..], cutoff)
  }

  function TotalCost(events: seq<Event>): int {
    if events == [] then 0 else events[0].cost + TotalCost(events[1..])
  }

  /** The events a call at `now` finds after expiry; a changed window length drops them all. */
  function LiveEvents(l: Option<Log>, window: int, now: int): seq<Event> {
    if l.Some? && l.value.window == window then Keep(l.value.events, now - window) else []
  }

  function LogStep(l: Option<Log>, limit: int, window: int, now: int, cost: int): (Log, Decision) {
    var live := LiveEvents(l, window, now);
    var total := TotalCost(live);
    var allowed := total + cost <= limit;
    var events := if allowed then live + [Event(now, cost)] else live;
    var used := if allowed then total + cost else total;
    var retryAfter := if !allowed && |live| > 0 then Max(0, live[0].t + window - now) else 0;
    (Log(window, events), Decision(allowed, Max(0, limit - used), limit, window as real, retryAfter as real))
  }

  lemma {:induction false} TotalCostAppend(a: seq<Event>, b: seq<Event>)
    ensures TotalCost(a + b) == TotalCost(a) + TotalCost(b)
  {
    if a == [] {
      assert a + b == b;
    } else {
      assert (a + b)[1..] == a[1..] + b;
      TotalCostAppend(a[1..], b);
    }
  }

  lemma {:induction false} KeepAppend(a: seq<Event>, b: seq<Event>, cutoff: int)
    ensures Keep(a + b, cutoff) == Keep(a, cutoff) + Keep(b, cutoff)
  {
    if a == [] {
      assert a + b == b;
    } else {
      var head := if a[0].t >= cutoff then [a[0]] else [];
      assert (a + b)[0] == a[0] && (a + b)[1..] == a[1..] + b;
      KeepAppend(a[1..], b, cutoff);
      assert Keep(a, cutoff) == head + Keep(a[1..], cutoff);
      assert Keep(a + b, cutoff) == head + (Keep(a[1..], cutoff) + Keep(b, cutoff));
    }
  }

  /** Expiry composes: a later cutoff subsumes an earlier one. */
  lemma {:induction false} KeepTwice(events: seq<Event>, early: int, late: int)
    requires early <= late
    ensures Keep(Keep(events, early), late) == Keep(events, late)
  {
    if events != [] {
      KeepTwice(events[1..], early, late);
      var head := if events[0].t >= early then [events[0]] else [];
      KeepAppend(head, Keep(events[1..], early), late);
    }
  }

  lemma KeepNothing(cutoff: int)
    ensures Keep([], cutoff) == [] && TotalCost([]) == 0
  {
  }

  lemma KeepOne(event: Event, cutoff: int)
    ensures Keep([event], cutoff) == if event.t >= cutoff then [event] else []
    ensures TotalCost([event]) == event.cost
  {
  }

  /**
   * The compaction loop of execSlidingWindowLocked: `filtered := events[:0]` shares the
   * backing array with the slice being read, so each kept event is written at or before
   * the place it was read from.
   */
  method Compact(buf: array<Event>, cutoff: int) returns (kept: nat, total: int)
    modifies buf
    ensures kept <= buf.Length
    ensures buf[..kept] == Keep(old(buf[..]), cutoff)
    ensures total == TotalCost(buf[..kept])
  {
    hide Keep, TotalCost;
    kept, total := 0, 0;
    ghost var was := buf[..];
    KeepNothing(cutoff);
    assert was[..0] == [] && buf[..0] == [];
    for i := 0 to buf.Length
      invariant kept <= i
      invariant buf[i..] == was[i..]
      invariant buf[..kept] == Keep(was[..i], cutoff)
      invariant total == TotalCost(buf[..kept])
    {
      var event := buf[i];
      assert event == was[i] by {
        assert buf[i..][0] == was[i..][0];
      }
      assert was[..i + 1] == was[..i] + [event];
      KeepAppend(was[..i], [event], cutoff);
      KeepOne(event, cutoff);
      if event.t >= cutoff {
        TotalCostAppend(buf[..kept], [event]);
        ghost var prefix := buf[..kept];
        ghost var tail := buf[i + 1..];
        buf[kept] := event;
        kept := kept + 1;
        total := total + event.cost;
        assert buf[..kept] == prefix + [event];
        assert buf[i + 1..] == tail;
      }
      assert buf[..kept] + [] == buf[..kept];
      assert was[i + 1..] == was[i..][1..];
      assert buf[i + 1..] == was[i + 1..];
    }
    assert was[..buf.Length] == was;
  }
}

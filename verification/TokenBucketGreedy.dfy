/** The token bucket against the rate bound itself: what it admits is all the bound allows. */
module TokenBucketGreedy {
  import opened TokenBucket

  /** One answered call. */
  datatype Record = Record(client: Client, at: int, ok: bool)

  /** Calls of the client answered yes at times in [from, to]. */
  function Count(log: seq<Record>, c: Client, from: int, to: int): nat {
    if log == [] then 0
    else
      var r := log[|log| - 1];
      Count(log[..|log| - 1], c, from, to) + if r.client == c && r.ok && from <= r.at <= to then 1 else 0
  }

  /** Answering yes at `at` breaks the rate bound on no interval that ends there. */
  ghost predicate WithinBound(l: Limits, log: seq<Record>, c: Client, at: int) {
    forall from: int | from <= at :: Room(l, log, c, from, at) >= l.window
  }

  /** What the bound leaves in [from, to] beside the calls answered yes there. */
  function Room(l: Limits, log: seq<Record>, c: Client, from: int, to: int): int {
    l.capacity * l.window + (to - from) * l.rate - l.window * Count(log, c, from, to)
  }

  /** The limiter that keeps no buckets but its own answers, and says yes whenever the bound allows. */
  ghost function GreedyAnswers(l: Limits, log: seq<Record>, events: seq<Event>): seq<bool>
    decreases |events|
  {
    if events == [] then []
    else
      match events[0]
      case Sweep(_) => GreedyAnswers(l, log, events[1..])
      case Call(c, at) =>
        var ok := WithinBound(l, log, c, at);
        [ok] + GreedyAnswers(l, log + [Record(c, at, ok)], events[1..])
  }

  // ------------------------------------------------------------------ the level is the least room

  /** A level that no interval ending at `now` falls below, and that one of them attains. */
  ghost predicate IsLeast(l: Limits, log: seq<Record>, c: Client, now: int, level: int) {
    && (forall from: int | from <= now :: Room(l, log, c, from, now) >= level)
    && exists from: int :: from <= now && Room(l, log, c, from, now) == level
  }

  ghost predicate Past(log: seq<Record>, now: int) {
    forall i | 0 <= i < |log| :: log[i].at <= now
  }

  lemma {:induction false} CountStays(log: seq<Record>, c: Client, from: int, now: int, later: int)
    requires Past(log, now) && now <= later
    ensures Count(log, c, from, later) == Count(log, c, from, now)
    ensures from > now ==> Count(log, c, from, later) == 0
  {
    if log != [] {
      CountStays(log[..|log| - 1], c, from, now, later);
    }
  }

  lemma RoomLater(l: Limits, log: seq<Record>, c: Client, from: int, now: int, later: int)
    requires Sound(l) && Past(log, now) && now <= later
    ensures from <= now ==> Room(l, log, c, from, later) == Room(l, log, c, from, now) + (later - now) * l.rate
    ensures now < from <= later ==> Room(l, log, c, from, later) == Full(l) + (later - from) * l.rate >= Full(l)
  {
    CountStays(log, c, from, now, later);
    assert (later - from) * l.rate == (now - from) * l.rate + (later - now) * l.rate;
    if from <= later {
      MulMono(0, later - from, l.rate);
    }
  }

  lemma LevelLater(l: Limits, s: Slot, now: int, later: int)
    requires Sound(l) && now <= later && (s.Present? ==> s.bucket.lastRefill <= now)
    ensures Level(l, s, later) == var grown := Level(l, s, now) + (later - now) * l.rate; if grown > Full(l) then Full(l) else grown
  {
    MulMono(0, later - now, l.rate);
    if s.Present? {
      var last := s.bucket.lastRefill;
      assert (later - last) * l.rate == (now - last) * l.rate + (later - now) * l.rate;
    }
  }

  lemma LeastLater(l: Limits, log: seq<Record>, c: Client, s: Slot, now: int, later: int)
    requires Sound(l) && Past(log, now) && now <= later && (s.Present? ==> s.bucket.lastRefill <= now)
    requires IsLeast(l, log, c, now, Level(l, s, now))
    ensures IsLeast(l, log, c, later, Level(l, s, later))
  {
    var level := Level(l, s, later);
    LevelLater(l, s, now, later);
    forall from: int | from <= later ensures Room(l, log, c, from, later) >= level {
      RoomLater(l, log, c, from, now, later);
      assert from <= now ==> Room(l, log, c, from, now) >= Level(l, s, now);
    }
    if now < later && level == Full(l) {
      RoomLater(l, log, c, later, now, later);
      assert (later - later) * l.rate == 0;
      assert Room(l, log, c, later, later) == level;
    } else {
      var from: int :| from <= now && Room(l, log, c, from, now) == Level(l, s, now);
      RoomLater(l, log, c, from, now, later);
      assert (now - now) * l.rate == 0;
      assert Room(l, log, c, from, later) == level;
    }
  }

  /** One more answer, a yes taking a token. */
  lemma LeastAfterCall(l: Limits, log: seq<Record>, c: Client, r: Record, level: int)
    requires IsLeast(l, log, c, r.at, level)
    ensures IsLeast(l, log + [r], c, r.at, if r.client == c && r.ok then level - l.window else level)
  {
    var taken := if r.client == c && r.ok then 1 else 0;
    forall from: int | from <= r.at ensures Room(l, log + [r], c, from, r.at) == Room(l, log, c, from, r.at) - l.window * taken {
      assert (log + [r])[..|log|] == log;
      Distribute(l.window, Count(log, c, from, r.at));
    }
    var from: int :| from <= r.at && Room(l, log, c, from, r.at) == level;
    assert Room(l, log + [r], c, from, r.at) == level - l.window * taken;
  }

  lemma LeastDecides(l: Limits, log: seq<Record>, c: Client, at: int, level: int)
    requires IsLeast(l, log, c, at, level)
    ensures level >= l.window <==> WithinBound(l, log, c, at)
  {
    var from: int :| from <= at && Room(l, log, c, from, at) == level;
  }

  // ------------------------------------------------------------------ whole runs

  ghost predicate AllLeast(l: Limits, log: seq<Record>, bs: Buckets, now: int) {
    forall c: Client :: IsLeast(l, log, c, now, Level(l, SlotOf(bs, c), now))
  }

  lemma AllLeastLater(l: Limits, log: seq<Record>, bs: Buckets, now: int, later: int)
    requires Sound(l) && BucketsOk(l, bs, now) && Past(log, now) && AllLeast(l, log, bs, now) && now <= later
    ensures AllLeast(l, log, bs, later)
  {
    forall c: Client ensures IsLeast(l, log, c, later, Level(l, SlotOf(bs, c), later)) {
      LeastLater(l, log, c, SlotOf(bs, c), now, later);
    }
  }

  lemma StepLeast(l: Limits, log: seq<Record>, bs: Buckets, e: Event)
    requires Sound(l) && BucketsOk(l, bs, e.at) && AllLeast(l, log, bs, e.at)
    requires IdleRefillsBucket(l) || e.Call?
    ensures var log' := if e.Call? then log + [Record(e.client, e.at, Admits(l, SlotOf(bs, e.client), e.at))] else log;
      AllLeast(l, log', Step(l, bs, e), e.at)
    ensures e.Call? ==> Admits(l, SlotOf(bs, e.client), e.at) == WithinBound(l, log, e.client, e.at)
  {
    var log' := if e.Call? then log + [Record(e.client, e.at, Admits(l, SlotOf(bs, e.client), e.at))] else log;
    forall c: Client ensures IsLeast(l, log', c, e.at, Level(l, SlotOf(Step(l, bs, e), c), e.at)) {
      assert IsLeast(l, log, c, e.at, Level(l, SlotOf(bs, c), e.at));
      StepLevel(l, bs, e, c, e.at);
      if e.Call? {
        LeastAfterCall(l, log, c, log'[|log|], Level(l, SlotOf(bs, c), e.at));
      }
    }
    if e.Call? {
      LeastDecides(l, log, e.client, e.at, Level(l, SlotOf(bs, e.client), e.at));
    }
  }

  lemma {:induction false} RunIsGreedy(l: Limits, log: seq<Record>, bs: Buckets, events: seq<Event>, now: int)
    requires Sound(l) && BucketsOk(l, bs, now) && Past(log, now) && AllLeast(l, log, bs, now) && Ordered(events, now)
    requires IdleRefillsBucket(l) || SweepFree(events)
    ensures Answers(l, bs, events) == GreedyAnswers(l, log, events)
    decreases |events|
  {
    if events != [] {
      var e := events[0];
      StepKeepsOk(l, bs, e, now);
      AllLeastLater(l, log, bs, now, e.at);
      StepLeast(l, log, bs, e);
      var log' := if e.Call? then log + [Record(e.client, e.at, Admits(l, SlotOf(bs, e.client), e.at))] else log;
      RunIsGreedy(l, log', Step(l, bs, e), events[1..], e.at);
    }
  }

  lemma NothingLogged(l: Limits, now: int)
    requires Sound(l)
    ensures AllLeast(l, [], map[], now)
  {
    forall c: Client ensures IsLeast(l, [], c, now, Full(l)) {
      forall from: int | from <= now ensures Room(l, [], c, from, now) >= Full(l) {
        MulMono(0, now - from, l.rate);
      }
      assert (now - now) * l.rate == 0;
      assert Room(l, [], c, now, now) == Full(l);
    }
  }

  /** A call is refused if and only if admitting it would break the rate bound on some interval: in
      every run the answers are those of the greedy limiter, if nothing is evicted or idling refills. */
  lemma BucketIsGreedy(l: Limits, events: seq<Event>, start: int)
    requires Sound(l) && Ordered(events, start)
    requires IdleRefillsBucket(l) || SweepFree(events)
    ensures Answers(l, map[], events) == GreedyAnswers(l, [], events)
  {
    NothingLogged(l, start);
    RunIsGreedy(l, [], map[], events, start);
  }

  ghost predicate AlwaysGreedy(l: Limits) {
    forall events: seq<Event>, start: int | Ordered(events, start) :: Answers(l, map[], events) == GreedyAnswers(l, [], events)
  }

  lemma {:induction false} GreedyIgnoresSweeps(l: Limits, log: seq<Record>, events: seq<Event>)
    ensures GreedyAnswers(l, log, WithoutSweeps(events)) == GreedyAnswers(l, log, events)
    ensures SweepFree(WithoutSweeps(events))
    decreases |events|
  {
    if events != [] {
      var e, rest := events[0], WithoutSweeps(events[1..]);
      if e.Call? {
        GreedyIgnoresSweeps(l, log + [Record(e.client, e.at, WithinBound(l, log, e.client, e.at))], events[1..]);
        assert ([e] + rest)[1..] == rest;
      } else {
        GreedyIgnoresSweeps(l, log, events[1..]);
        assert WithoutSweeps(events) == rest;
      }
    }
  }

  lemma {:induction false} OrderedWithoutSweeps(events: seq<Event>, from: int)
    requires Ordered(events, from)
    ensures Ordered(WithoutSweeps(events), from)
    decreases |events|
  {
    if events != [] {
      OrderedWithoutSweeps(events[1..], events[0].at);
      var rest := WithoutSweeps(events[1..]);
      if events[0].Call? {
        assert ([events[0]] + rest)[1..] == rest;
      } else {
        OrderedEarlier(rest, events[0].at, from);
        assert WithoutSweeps(events) == rest;
      }
    }
  }

  /** With evictions that holds in every run if and only if ten idle minutes refill a bucket. */
  lemma BucketIsGreedyExactly(l: Limits)
    requires Sound(l)
    ensures AlwaysGreedy(l) <==> IdleRefillsBucket(l)
  {
    if IdleRefillsBucket(l) {
      forall events: seq<Event>, start: int | Ordered(events, start)
        ensures Answers(l, map[], events) == GreedyAnswers(l, [], events)
      {
        BucketIsGreedy(l, events, start);
      }
    }
    if AlwaysGreedy(l) {
      var trap := SweepTrap(l, "");
      TrapOrdered(l, "");
      TrapSprings(l, "");
      OrderedWithoutSweeps(trap, 0);
      GreedyIgnoresSweeps(l, [], trap);
      BucketIsGreedy(l, WithoutSweeps(trap), 0);
    }
  }
}

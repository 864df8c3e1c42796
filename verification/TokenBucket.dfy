/** The in-memory token-bucket rate limiter with background eviction of idle buckets.
    Time is in nanoseconds.  Tokens are counted in units of 1/window of a token, so that
    refilling adds `elapsed * rate`, one request costs `window`, and a full bucket holds
    `capacity * window`; no rounding is left. */
module TokenBucket {

  type Client = string

  /** Ten minutes. */
  const IDLE_LIMIT := 600_000_000_000

  datatype Limits = Limits(rate: int, capacity: int, window: int)

  /** What `GetRateLimiter` can configure. */
  predicate Sound(l: Limits) {
    l.rate > 0 && l.capacity > 0 && l.window > 0
  }

  function Full(l: Limits): int {
    l.capacity * l.window
  }

  datatype Bucket = Bucket(tokens: int, lastRefill: int)
  datatype Slot = Missing | Present(bucket: Bucket)

  type Buckets = map<Client, Bucket>

  function SlotOf(bs: Buckets, c: Client): Slot {
    if c in bs then Present(bs[c]) else Missing
  }

  /** Scaled tokens available to a client at `now`; an unknown client has a full bucket. */
  function Level(l: Limits, s: Slot, now: int): int {
    match s
    case Missing => Full(l)
    case Present(b) =>
      var refilled := b.tokens + (now - b.lastRefill) * l.rate;
      if refilled > Full(l) then Full(l) else refilled
  }

  function Admits(l: Limits, s: Slot, now: int): bool {
    Level(l, s, now) >= l.window
  }

  function AfterCall(l: Limits, s: Slot, now: int): Bucket {
    Bucket(Level(l, s, now) - (if Admits(l, s, now) then l.window else 0), now)
  }

  predicate Evictable(b: Bucket, now: int) {
    now - b.lastRefill > IDLE_LIMIT
  }

  function Swept(bs: Buckets, now: int): Buckets {
    map c | c in bs && !Evictable(bs[c], now) :: bs[c]
  }

  // ------------------------------------------------------------------------ runs

  datatype Event = Call(client: Client, at: int) | Sweep(at: int)

  ghost predicate Ordered(events: seq<Event>, from: int) {
    events != [] ==> from <= events[0].at && Ordered(events[1..], events[0].at)
  }

  function Step(l: Limits, bs: Buckets, e: Event): Buckets {
    match e
    case Call(c, at) => bs[c := AfterCall(l, SlotOf(bs, c), at)]
    case Sweep(at) => Swept(bs, at)
  }

  /** The answers given to the calls, in order. */
  function Answers(l: Limits, bs: Buckets, events: seq<Event>): seq<bool>
    decreases |events|
  {
    if events == [] then []
    else
      (if events[0].Call? then [Admits(l, SlotOf(bs, events[0].client), events[0].at)] else [])
      + Answers(l, Step(l, bs, events[0]), events[1..])
  }

  function WithoutSweeps(events: seq<Event>): seq<Event> {
    if events == [] then []
    else (if events[0].Sweep? then [] else [events[0]]) + WithoutSweeps(events[1..])
  }

  /** Number of calls of one client admitted at times in [from, to]. */
  function Admitted(l: Limits, bs: Buckets, events: seq<Event>, c: Client, from: int, to: int): nat
    decreases |events|
  {
    if events == [] then 0
    else
      (if events[0].Call? && events[0].client == c && from <= events[0].at <= to
          && Admits(l, SlotOf(bs, c), events[0].at) then 1 else 0)
      + Admitted(l, Step(l, bs, events[0]), events[1..], c, from, to)
  }

  ghost predicate BucketsOk(l: Limits, bs: Buckets, now: int) {
    forall c | c in bs :: 0 <= bs[c].tokens <= Full(l) && bs[c].lastRefill <= now
  }

  /** Ten idle minutes (plus the first nanosecond at which eviction is possible) refill
      a bucket from empty. */
  predicate IdleRefillsBucket(l: Limits) {
    Full(l) <= (IDLE_LIMIT + 1) * l.rate
  }

  ghost predicate SweepFree(events: seq<Event>) {
    forall i | 0 <= i < |events| :: events[i].Call?
  }

  // ------------------------------------------------------------------ the budget

  lemma MulMono(a: int, b: int, r: int)
    requires a <= b && r >= 0
    ensures a * r <= b * r
  {
  }

  lemma LevelGrowth(l: Limits, s: Slot, now: int, later: int)
    requires Sound(l) && now <= later
    ensures Level(l, s, now) <= Level(l, s, later) <= Level(l, s, now) + (later - now) * l.rate
  {
    MulMono(0, later - now, l.rate);
    if s.Present? {
      var last := s.bucket.lastRefill;
      assert (later - last) * l.rate == (now - last) * l.rate + (later - now) * l.rate;
    }
  }

  lemma StepKeepsOk(l: Limits, bs: Buckets, e: Event, now: int)
    requires Sound(l) && BucketsOk(l, bs, now) && now <= e.at
    ensures BucketsOk(l, Step(l, bs, e), e.at)
  {
    MulMono(0, l.capacity, l.window);
    if e.Call? && e.client in bs {
      MulMono(0, e.at - bs[e.client].lastRefill, l.rate);
    }
  }

  /** Evicting a bucket is the same as refilling it, when idling refills buckets. */
  lemma EvictedWasFull(l: Limits, b: Bucket, now: int)
    requires Sound(l) && IdleRefillsBucket(l) && b.tokens >= 0 && Evictable(b, now)
    ensures Level(l, Present(b), now) == Full(l)
  {
    MulMono(IDLE_LIMIT + 1, now - b.lastRefill, l.rate);
  }

  lemma StepLevel(l: Limits, bs: Buckets, e: Event, c: Client, now: int)
    requires Sound(l) && BucketsOk(l, bs, now) && now <= e.at
    requires IdleRefillsBucket(l) || e.Call?
    ensures var before := Level(l, SlotOf(bs, c), e.at);
      Level(l, SlotOf(Step(l, bs, e), c), e.at)
        == if e.Call? && e.client == c && Admits(l, SlotOf(bs, c), e.at) then before - l.window else before
  {
    if e.Sweep? && c in bs && Evictable(bs[c], e.at) {
      EvictedWasFull(l, bs[c], e.at);
    }
    assert (e.at - e.at) * l.rate == 0;
  }

  /** What is admitted up to `to` was in the bucket at `now` or has been refilled since. */
  lemma {:induction false} Budget(l: Limits, bs: Buckets, events: seq<Event>, c: Client, now: int, from: int, to: int)
    requires Sound(l) && BucketsOk(l, bs, now) && Ordered(events, now)
    requires IdleRefillsBucket(l) || SweepFree(events)
    requires from <= to && now <= to
    ensures l.window * Admitted(l, bs, events, c, from, to)
         <= Level(l, SlotOf(bs, c), Max(now, from)) + (to - Max(now, from)) * l.rate
    decreases |events|
  {
    var start := Max(now, from);
    if events == [] || events[0].at > to {
      NothingAfter(l, bs, events, c, now, from, to);
      LevelNonNegative(l, bs, c, now, start);
      MulMono(0, to - start, l.rate);
    } else {
      var e := events[0];
      StepKeepsOk(l, bs, e, now);
      Budget(l, Step(l, bs, e), events[1..], c, e.at, from, to);
      var next := Max(e.at, from);
      LevelGrowth(l, SlotOf(bs, c), start, next);
      assert (to - start) * l.rate == (to - next) * l.rate + (next - start) * l.rate;
      BudgetStep(l, bs, e, c, now, from);
      Distribute(l.window, Admitted(l, Step(l, bs, e), events[1..], c, from, to));
    }
  }

  /** One event takes from what is available in the interval what it admits there. */
  lemma BudgetStep(l: Limits, bs: Buckets, e: Event, c: Client, now: int, from: int)
    requires Sound(l) && BucketsOk(l, bs, now) && now <= e.at
    requires IdleRefillsBucket(l) || e.Call?
    ensures var next := Max(e.at, from);
      Level(l, SlotOf(Step(l, bs, e), c), next)
      + (if e.Call? && e.client == c && from <= e.at && Admits(l, SlotOf(bs, c), e.at) then l.window else 0)
      <= Level(l, SlotOf(bs, c), next)
  {
    if e.at < from {
      SameLevelLater(l, bs, e, c, now, from);
    } else {
      StepLevel(l, bs, e, c, now);
    }
  }

  function Max(a: int, b: int): int {
    if a < b then b else a
  }

  lemma Distribute(w: int, n: int)
    ensures w * (1 + n) == w + w * n
    ensures (n + 1) * w == n * w + w
  {
  }

  lemma LevelNonNegative(l: Limits, bs: Buckets, c: Client, now: int, later: int)
    requires Sound(l) && BucketsOk(l, bs, now) && now <= later
    ensures 0 <= Level(l, SlotOf(bs, c), later) <= Full(l)
  {
    MulMono(0, l.capacity, l.window);
    if c in bs {
      MulMono(0, later - bs[c].lastRefill, l.rate);
    }
  }

  /** Before the counted interval a call only lowers what is available in it. */
  lemma SameLevelLater(l: Limits, bs: Buckets, e: Event, c: Client, now: int, later: int)
    requires Sound(l) && BucketsOk(l, bs, now) && now <= e.at <= later
    requires IdleRefillsBucket(l) || e.Call?
    ensures Level(l, SlotOf(Step(l, bs, e), c), later) <= Level(l, SlotOf(bs, c), later)
  {
    if e.Sweep? {
      if c in bs && Evictable(bs[c], e.at) {
        EvictedWasFull(l, bs[c], e.at);
        LevelGrowth(l, SlotOf(bs, c), e.at, later);
      }
    } else if e.client == c {
      var s := SlotOf(bs, c);
      MulMono(0, later - e.at, l.rate);
      match s {
        case Missing =>
        case Present(b) =>
          assert (later - b.lastRefill) * l.rate == (e.at - b.lastRefill) * l.rate + (later - e.at) * l.rate;
      }
    }
  }

  lemma {:induction false} NothingAfter(l: Limits, bs: Buckets, events: seq<Event>, c: Client, now: int, from: int, to: int)
    requires Ordered(events, now) && (events != [] ==> events[0].at > to)
    ensures Admitted(l, bs, events, c, from, to) == 0
    decreases |events|
  {
    if events != [] {
      NothingAfter(l, Step(l, bs, events[0]), events[1..], c, events[0].at, from, to);
    }
  }

  /** In every interval, one client is admitted at most capacity + rate * length / window
      times (both sides multiplied by the window). */
  ghost predicate RateBounded(l: Limits, events: seq<Event>) {
    forall c: Client, from: int, to: int | from <= to ::
      l.window * Admitted(l, map[], events, c, from, to) <= Full(l) + (to - from) * l.rate
  }

  lemma RateIsBounded(l: Limits, events: seq<Event>, start: int)
    requires Sound(l) && Ordered(events, start)
    requires IdleRefillsBucket(l) || SweepFree(events)
    ensures RateBounded(l, events)
  {
    forall c: Client, from: int, to: int | from <= to
      ensures l.window * Admitted(l, map[], events, c, from, to) <= Full(l) + (to - from) * l.rate
    {
      var now := if start <= from then start else from;
      OrderedEarlier(events, start, now);
      Budget(l, map[], events, c, now, from, to);
    }
  }

  lemma OrderedEarlier(events: seq<Event>, start: int, earlier: int)
    requires Ordered(events, start) && earlier <= start
    ensures Ordered(events, earlier)
  {
  }

  // ---------------------------------------------------------- eviction unobserved

  /** One client's slot in the evicting limiter against the limiter that keeps all. */
  ghost predicate Agree(l: Limits, swept: Slot, kept: Slot, now: int) {
    swept == kept || (swept.Missing? && Level(l, kept, now) == Full(l))
  }

  ghost predicate AllAgree(l: Limits, swept: Buckets, kept: Buckets, now: int) {
    forall c :: Agree(l, SlotOf(swept, c), SlotOf(kept, c), now)
  }

  lemma AgreeLater(l: Limits, swept: Slot, kept: Slot, now: int, later: int)
    requires Sound(l) && Agree(l, swept, kept, now) && now <= later
    ensures Agree(l, swept, kept, later)
    ensures Level(l, swept, later) == Level(l, kept, later)
  {
    LevelGrowth(l, kept, now, later);
  }

  lemma {:induction false} SameAnswers(l: Limits, swept: Buckets, kept: Buckets, events: seq<Event>, now: int)
    requires Sound(l) && IdleRefillsBucket(l) && Ordered(events, now)
    requires BucketsOk(l, swept, now) && AllAgree(l, swept, kept, now)
    ensures Answers(l, swept, events) == Answers(l, kept, WithoutSweeps(events))
    decreases |events|
  {
    if events != [] {
      var e := events[0];
      var swept' := Step(l, swept, e);
      StepKeepsOk(l, swept, e, now);
      var rest := WithoutSweeps(events[1..]);
      var kept' := if e.Sweep? then kept else Step(l, kept, e);
      forall c ensures Agree(l, SlotOf(swept', c), SlotOf(kept', c), e.at) {
        assert Agree(l, SlotOf(swept, c), SlotOf(kept, c), now);
        AgreeLater(l, SlotOf(swept, c), SlotOf(kept, c), now, e.at);
        if e.Sweep? && c in swept && Evictable(swept[c], e.at) {
          EvictedWasFull(l, swept[c], e.at);
        }
      }
      SameAnswers(l, swept', kept', events[1..], e.at);
      if e.Call? {
        assert Agree(l, SlotOf(swept, e.client), SlotOf(kept, e.client), now);
        AgreeLater(l, SlotOf(swept, e.client), SlotOf(kept, e.client), now, e.at);
        assert WithoutSweeps(events) == [e] + rest;
        assert ([e] + rest)[1..] == rest;
      } else {
        assert WithoutSweeps(events) == rest;
        assert Answers(l, swept, events) == Answers(l, swept', events[1..]);
      }
    }
  }

  ghost predicate SweepsUnobserved(l: Limits, events: seq<Event>) {
    Answers(l, map[], events) == Answers(l, map[], WithoutSweeps(events))
  }

  // ------------------------------------------------- what goes wrong otherwise

  function Burst(c: Client, at: int, n: nat): seq<Event> {
    if n == 0 then [] else [Call(c, at)] + Burst(c, at, n - 1)
  }

  function Trues(n: nat): seq<bool> {
    if n == 0 then [] else [true] + Trues(n - 1)
  }

  function After(l: Limits, bs: Buckets, events: seq<Event>): Buckets
    decreases |events|
  {
    if events == [] then bs else After(l, Step(l, bs, events[0]), events[1..])
  }

  lemma {:induction false} Concatenated(l: Limits, bs: Buckets, first: seq<Event>, second: seq<Event>)
    ensures Answers(l, bs, first + second) == Answers(l, bs, first) + Answers(l, After(l, bs, first), second)
    ensures WithoutSweeps(first + second) == WithoutSweeps(first) + WithoutSweeps(second)
    decreases |first|
  {
    if first == [] {
      assert first + second == second;
    } else {
      assert (first + second)[1..] == first[1..] + second;
      Concatenated(l, Step(l, bs, first[0]), first[1..], second);
    }
  }

  /** `n` calls at one instant all pass exactly when the bucket covers them, and then
      that is what they take out of it. */
  lemma {:induction false} BurstPasses(l: Limits, bs: Buckets, c: Client, at: int, n: nat)
    requires Sound(l) && Level(l, SlotOf(bs, c), at) >= 0
    ensures Level(l, SlotOf(bs, c), at) >= n * l.window <==> Answers(l, bs, Burst(c, at, n)) == Trues(n)
    ensures Level(l, SlotOf(bs, c), at) >= n * l.window && n > 0 ==>
      SlotOf(After(l, bs, Burst(c, at, n)), c) == Present(Bucket(Level(l, SlotOf(bs, c), at) - n * l.window, at))
    ensures |Answers(l, bs, Burst(c, at, n))| == n
    decreases n
  {
    if n > 0 {
      var events := Burst(c, at, n);
      assert events[0] == Call(c, at) && events[1..] == Burst(c, at, n - 1);
      var bs' := Step(l, bs, events[0]);
      assert (at - at) * l.rate == 0;
      assert n * l.window == l.window + (n - 1) * l.window;
      MulMono(0, n - 1, l.window);
      assert Answers(l, bs, events)[0] == Admits(l, SlotOf(bs, c), at);
      assert Answers(l, bs, events)[1..] == Answers(l, bs', events[1..]);
      assert Trues(n)[1..] == Trues(n - 1) && Trues(n)[0];
      BurstPasses(l, bs', c, at, n - 1);
    }
  }

  /** A full burst, ten silent minutes, a sweep, a full burst. */
  function SweepTrap(l: Limits, c: Client): seq<Event>
    requires Sound(l)
  {
    Burst(c, 0, l.capacity) + ([Sweep(IDLE_LIMIT + 1)] + Burst(c, IDLE_LIMIT + 1, l.capacity))
  }

  lemma {:induction false} BurstShape(c: Client, at: int, n: nat, more: seq<Event>)
    requires Ordered(more, at)
    ensures Ordered(Burst(c, at, n) + more, at)
    ensures WithoutSweeps(Burst(c, at, n)) == Burst(c, at, n)
  {
    if n > 0 {
      BurstShape(c, at, n - 1, more);
      assert (Burst(c, at, n) + more)[1..] == Burst(c, at, n - 1) + more;
    } else {
      assert Burst(c, at, n) + more == more;
    }
  }

  lemma TrapOrdered(l: Limits, c: Client)
    requires Sound(l)
    ensures Ordered(SweepTrap(l, c), 0)
    ensures WithoutSweeps(SweepTrap(l, c)) == Burst(c, 0, l.capacity) + Burst(c, IDLE_LIMIT + 1, l.capacity)
  {
    var D := IDLE_LIMIT + 1;
    var burst := Burst(c, D, l.capacity);
    BurstShape(c, D, l.capacity, []);
    assert burst + [] == burst;
    var tail := [Sweep(D)] + burst;
    assert tail[1..] == burst;
    BurstShape(c, 0, l.capacity, tail);
    Concatenated(l, map[], Burst(c, 0, l.capacity), tail);
  }

  /** If idling does not refill a bucket, the trap tells the two limiters apart: with
      the sweep every call passes, without it the last ones are refused. */
  lemma TrapSprings(l: Limits, c: Client)
    requires Sound(l)
    ensures SweepsUnobserved(l, SweepTrap(l, c)) ==> IdleRefillsBucket(l)
    ensures !IdleRefillsBucket(l) ==> Answers(l, map[], SweepTrap(l, c)) == Trues(l.capacity) + Trues(l.capacity)
  {
    var D := IDLE_LIMIT + 1;
    var n := l.capacity;
    var first, second := Burst(c, 0, n), Burst(c, D, n);
    TrapOrdered(l, c);
    BurstPasses(l, map[], c, 0, n);
    var bs := After(l, map[], first);
    assert bs[c] == Bucket(0, 0);
    var tail := [Sweep(D)] + second;
    assert tail[1..] == second;
    Concatenated(l, map[], first, tail);
    Concatenated(l, map[], first, second);
    var swept := Step(l, bs, Sweep(D));
    assert c !in swept;
    BurstPasses(l, swept, c, D, n);
    assert Answers(l, bs, tail) == Answers(l, swept, second);
    MulMono(0, D, l.rate);
    BurstPasses(l, bs, c, D, n);
    if SweepsUnobserved(l, SweepTrap(l, c)) {
      assert Answers(l, map[], first + second) == Trues(n) + Answers(l, bs, second);
      assert (Trues(n) + Answers(l, bs, second))[n..] == Answers(l, bs, second);
      assert Answers(l, map[], SweepTrap(l, c))[n..] == Trues(n);
    }
  }

  lemma {:induction false} TrueLength(n: nat)
    ensures |Trues(n)| == n
  {
    if n > 0 { TrueLength(n - 1); }
  }

  // ---------------------------------------------------------------- main results

  ghost predicate EvictionTransparent(l: Limits) {
    forall events: seq<Event>, start: int | Ordered(events, start) :: SweepsUnobserved(l, events)
  }

  /** Evicting idle buckets changes no answer in any run, if and only if ten idle
      minutes refill a bucket. */
  lemma EvictionTransparentExactly(l: Limits)
    requires Sound(l)
    ensures EvictionTransparent(l) <==> IdleRefillsBucket(l)
  {
    if IdleRefillsBucket(l) {
      forall events: seq<Event>, start: int | Ordered(events, start) ensures SweepsUnobserved(l, events) {
        SameAnswers(l, map[], map[], events, start);
      }
    }
    if EvictionTransparent(l) {
      TrapOrdered(l, "");
      TrapSprings(l, "");
    }
  }

  lemma {:induction false} AdmittedIsTrues(l: Limits, bs: Buckets, c: Client, events: seq<Event>, from: int, to: int, n: nat)
    requires forall i | 0 <= i < |events| :: (events[i].Call? ==> events[i].client == c) && from <= events[i].at <= to
    requires Answers(l, bs, events) == Trues(n)
    ensures Admitted(l, bs, events, c, from, to) == n
    decreases |events|
  {
    if events == [] {
      TrueLength(n);
    } else {
      var e := events[0];
      var rest := Answers(l, Step(l, bs, e), events[1..]);
      if e.Call? {
        assert Answers(l, bs, events)[0] == Admits(l, SlotOf(bs, c), e.at);
        assert Answers(l, bs, events)[1..] == rest;
        assert Trues(n) != [] && Trues(n)[1..] == Trues(n - 1);
        AdmittedIsTrues(l, Step(l, bs, e), c, events[1..], from, to, n - 1);
      } else {
        assert Answers(l, bs, events) == rest;
        AdmittedIsTrues(l, Step(l, bs, e), c, events[1..], from, to, n);
      }
    }
  }

  lemma {:induction false} TruesAdd(m: nat, n: nat)
    ensures Trues(m) + Trues(n) == Trues(m + n)
  {
    if m == 0 {
      assert Trues(0) + Trues(n) == Trues(n);
    } else {
      TruesAdd(m - 1, n);
    }
  }

  lemma {:induction false} BurstMembers(c: Client, at: int, n: nat)
    ensures forall i | 0 <= i < |Burst(c, at, n)| :: Burst(c, at, n)[i] == Call(c, at)
  {
    if n > 0 { BurstMembers(c, at, n - 1); }
  }

  lemma TrapExceedsBound(l: Limits, c: Client)
    requires Sound(l) && !IdleRefillsBucket(l)
    ensures Ordered(SweepTrap(l, c), 0) && !RateBounded(l, SweepTrap(l, c))
  {
    var trap, D, n := SweepTrap(l, c), IDLE_LIMIT + 1, l.capacity;
    TrapOrdered(l, c);
    TrapSprings(l, c);
    TruesAdd(n, n);
    BurstMembers(c, 0, n);
    BurstMembers(c, D, n);
    AdmittedIsTrues(l, map[], c, trap, 0, D, n + n);
    assert l.window * (n + n) == Full(l) + Full(l);
  }

  ghost predicate AlwaysRateBounded(l: Limits) {
    forall events: seq<Event>, start: int | Ordered(events, start) :: RateBounded(l, events)
  }

  /** The rate bound holds in every run, if and only if ten idle minutes refill a
      bucket; without sweeps it holds unconditionally (RateIsBounded). */
  lemma RateBoundedExactly(l: Limits)
    requires Sound(l)
    ensures AlwaysRateBounded(l) <==> IdleRefillsBucket(l)
  {
    if IdleRefillsBucket(l) {
      forall events: seq<Event>, start: int | Ordered(events, start) ensures RateBounded(l, events) {
        RateIsBounded(l, events, start);
      }
    } else {
      TrapExceedsBound(l, "");
    }
  }

  /** `RemainingTokens` never promises more than would be admitted at once, and right
      after a call it is exactly that number. */
  lemma RemainingIsAdmitted(l: Limits, bs: Buckets, c: Client, now: int)
    requires Sound(l) && BucketsOk(l, bs, now)
    ensures var n := Remaining(l, bs, c);
      && n >= 0
      && Answers(l, bs, Burst(c, now, n)) == Trues(n)
      && (c !in bs || bs[c].lastRefill == now ==> Answers(l, bs, Burst(c, now, n + 1)) != Trues(n + 1))
  {
    var n := Remaining(l, bs, c);
    var level := Level(l, SlotOf(bs, c), now);
    LevelNonNegative(l, bs, c, now, now);
    if c in bs {
      MulMono(0, now - bs[c].lastRefill, l.rate);
      FloorBounds(bs[c].tokens, l.window);
      assert n * l.window <= bs[c].tokens <= level;
    }
    BurstPasses(l, bs, c, now, n);
    BurstPasses(l, bs, c, now, n + 1);
    Distribute(l.window, n);
  }

  lemma FloorBounds(x: int, w: int)
    requires x >= 0 && w > 0
    ensures 0 <= x / w && x / w * w <= x < (x / w + 1) * w
  {
    assert x == x / w * w + x % w;
  }

  function Remaining(l: Limits, bs: Buckets, c: Client): int
    requires Sound(l)
  {
    if c in bs then bs[c].tokens / l.window else l.capacity
  }

  // ------------------------------------------------------------------- the Go type

  class RateLimiter {
    const limits: Limits
    var buckets: Buckets

    constructor (limits: Limits)
      ensures this.limits == limits && buckets == map[]
    {
      this.limits, buckets := limits, map[];
    }

    /** The clock is read once for a new bucket (`created`) and once for the call. */
    method Allow(clientID: Client, created: int, now: int) returns (ok: bool)
      requires Sound(limits) && created <= now
      modifies this`buckets
      ensures buckets == Step(limits, old(buckets), Call(clientID, now))
      ensures ok == Admits(limits, SlotOf(old(buckets), clientID), now)
    {
      if clientID !in buckets {
        buckets := buckets[clientID := Bucket(limits.capacity * limits.window, created)];
      }
      MulMono(0, now - created, limits.rate);
      var bucket := buckets[clientID];
      var refill := (now - bucket.lastRefill) * limits.rate;
      bucket := bucket.(tokens := bucket.tokens + refill);
      if bucket.tokens > limits.capacity * limits.window {
        bucket := bucket.(tokens := limits.capacity * limits.window);
      }
      bucket := bucket.(lastRefill := now);
      ok := bucket.tokens >= limits.window;
      if ok {
        bucket := bucket.(tokens := bucket.tokens - limits.window);
      }
      buckets := buckets[clientID := bucket];
    }

    method RemainingTokens(clientID: Client) returns (n: int)
      requires Sound(limits)
      ensures n == Remaining(limits, buckets, clientID)
    {
      if clientID !in buckets {
        return limits.capacity;
      }
      n := buckets[clientID].tokens / limits.window;
    }

    /** One tick of `cleanup`; the map is ranged over in any order. */
    method CleanupTick(now: int)
      modifies this`buckets
      ensures buckets == Step(limits, old(buckets), Sweep(now))
    {
      var todo := buckets.Keys;
      while todo != {}
        invariant todo <= old(buckets).Keys
        invariant buckets == map c | c in old(buckets) && (c in todo || !Evictable(old(buckets)[c], now)) :: old(buckets)[c]
        decreases todo
      {
        var id :| id in todo;
        if now - buckets[id].lastRefill > IDLE_LIMIT {
          buckets := buckets - {id};
        }
        todo := todo - {id};
      }
    }
  }
}

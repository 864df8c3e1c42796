/** The renewal loop of a lease: a ticker, blocking calls that may hang until they time out,
    and exactly how much room a lifetime must leave for one failed call. */
module LeaseRenewal {
  import opened LeaseKey

  /** The timeout of one renewal call. */
  const CALL_TIMEOUT := 2_000_000_000

  /** Answered: the script ran and its reply came back.  Unanswered: it ran, but the call
      failed or timed out.  Missed: the call failed and the script never ran. */
  datatype Fate = Answered | Unanswered | Missed

  /** One pass through the loop: the script runs `delay` after the call begins, if at all,
      and the call blocks the loop for `duration`. */
  datatype Attempt = Attempt(fate: Fate, delay: nat, duration: nat)

  type Call = a: Attempt | a.delay <= a.duration <= CALL_TIMEOUT witness Attempt(Missed, 0, 0)

  // ------------------------------------------------------------------- the ticker

  /** The ticker fires every `interval`, at `tick` next.  Its channel holds one tick, so a
      loop that is busy until `end` finds one tick waiting and the others dropped. */
  function NextTick(tick: int, interval: int, end: int): (t: int)
    requires interval > 0
    ensures tick <= t && end < t
    ensures t == tick || t <= end + interval
    decreases end - tick
  {
    if tick <= end then NextTick(tick + interval, interval, end) else tick
  }

  /** The loop's clock: a call begins at `begin`, and `tick` is when the ticker fires next. */
  datatype Clock = Clock(begin: int, tick: int)

  /** The first call comes one interval after the loop has started. */
  function FirstCall(ttl: int, start: int): Clock {
    Clock(start + RenewInterval(ttl), start + 2 * RenewInterval(ttl))
  }

  /** The next call begins at once if a tick is waiting, and at the next tick otherwise. */
  function NextCall(ttl: int, c: Clock, a: Attempt): Clock {
    var end := c.begin + a.duration;
    if c.tick <= end
    then Clock(end, NextTick(c.tick, RenewInterval(ttl), end))
    else Clock(c.tick, c.tick + RenewInterval(ttl))
  }

  predicate ClockOk(ttl: int, c: Clock) {
    c.begin < c.tick <= c.begin + RenewInterval(ttl)
  }

  /** A call begins as soon as the one before it is over, but no sooner than its tick. */
  lemma NextCallTime(ttl: int, c: Clock, a: Attempt)
    requires ClockOk(ttl, c)
    ensures ClockOk(ttl, NextCall(ttl, c, a))
    ensures NextCall(ttl, c, a).begin == Max(c.tick, c.begin + a.duration)
  {
  }

  // ------------------------------------------ one failed renewal does not cost the key

  function DeadlineAfter(ttl: int, deadline: int, c: Clock, a: Attempt): int {
    if a.fate.Missed? then deadline else c.begin + a.delay + RenewLife(ttl)
  }

  /** The key never lapses: it is live when a call begins and when its script runs. */
  ghost predicate StaysLive(ttl: int, deadline: int, c: Clock, calls: seq<Call>)
    decreases |calls|
  {
    calls != [] ==>
      && c.begin + (if calls[0].fate.Missed? then 0 else calls[0].delay) < deadline
      && StaysLive(ttl, DeadlineAfter(ttl, deadline, c, calls[0]), NextCall(ttl, c, calls[0]), calls[1..])
  }

  /** The lease taken at time 0, known to its holder at `start`, is kept throughout. */
  ghost predicate LeaseKept(ttl: int, start: nat, calls: seq<Call>) {
    StaysLive(ttl, SetLife(ttl), FirstCall(ttl, start), calls)
  }

  ghost predicate NoTwoFailuresInARow(calls: seq<Call>) {
    forall i, j | 0 <= i && j == i + 1 < |calls| :: calls[i].fate.Answered? || calls[j].fate.Answered?
  }

  predicate TakesAtMost(a: Attempt, prompt: nat, hang: nat) {
    a.duration <= if a.fate.Answered? then prompt else hang
  }

  /** Answered calls take at most `prompt`, failed ones at most `hang`. */
  ghost predicate Within(calls: seq<Call>, prompt: nat, hang: nat) {
    forall i | 0 <= i < |calls| :: TakesAtMost(calls[i], prompt, hang)
  }

  /** The lease is kept however long the calls take, the SET included, and whichever fail,
      but never two running. */
  ghost predicate SurvivesSingleFailures(ttl: int, prompt: nat, hang: nat) {
    forall start: nat, calls: seq<Call> ::
      start <= prompt && Within(calls, prompt, hang) && NoTwoFailuresInARow(calls) ==>
        LeaseKept(ttl, start, calls)
  }

  /** The lifetime of the SET holds an interval, a failed call or an interval, and the delays;
      that of a renewal, which is no shorter then, has only one delay to hold. */
  ghost predicate RoomForOneFailure(ttl: int, prompt: nat, hang: nat) {
    RenewInterval(ttl) + Max(RenewInterval(ttl), hang) + 2 * prompt < SetLife(ttl)
  }

  lemma RestWithin(calls: seq<Call>, prompt: nat, hang: nat)
    requires calls != [] && Within(calls, prompt, hang) && NoTwoFailuresInARow(calls)
    ensures TakesAtMost(calls[0], prompt, hang)
    ensures Within(calls[1..], prompt, hang) && NoTwoFailuresInARow(calls[1..])
    ensures |calls| > 1 ==> calls[0].fate.Answered? || calls[1].fate.Answered?
  {
    var rest := calls[1..];
    forall i, j | 0 <= i && j == i + 1 < |rest| ensures rest[i].fate.Answered? || rest[j].fate.Answered? {
      assert calls[i + 1].fate.Answered? || calls[j + 1].fate.Answered?;
    }
  }

  /** With room, a key that will outlast a failed call, or the next call if that is
      answered, never lapses. */
  lemma {:induction false} RoomKeepsKey(ttl: int, prompt: nat, hang: nat, deadline: int, c: Clock, calls: seq<Call>)
    requires RoomForOneFailure(ttl, prompt, hang) && ClockOk(ttl, c)
    requires Within(calls, prompt, hang) && NoTwoFailuresInARow(calls)
    requires c.begin + prompt < deadline
    requires
      || c.begin + Max(RenewInterval(ttl), hang) + prompt < deadline
      || (calls != [] ==> calls[0].fate.Answered?)
    ensures StaysLive(ttl, deadline, c, calls)
    decreases |calls|
  {
    if calls != [] {
      RestWithin(calls, prompt, hang);
      NextCallTime(ttl, c, calls[0]);
      RoomKeepsKey(ttl, prompt, hang, DeadlineAfter(ttl, deadline, c, calls[0]), NextCall(ttl, c, calls[0]), calls[1..]);
    }
  }

  /** The exact margin: a lease survives every pattern of isolated failures if and only
      if the lifetime of the SET has room for one. */
  lemma SurvivesExactlyWithRoom(ttl: int, prompt: nat, hang: nat)
    requires ttl > 0 && prompt <= CALL_TIMEOUT && hang <= CALL_TIMEOUT
    ensures SurvivesSingleFailures(ttl, prompt, hang) <==> RoomForOneFailure(ttl, prompt, hang)
  {
    if RoomForOneFailure(ttl, prompt, hang) {
      forall start: nat, calls: seq<Call>
        | start <= prompt && Within(calls, prompt, hang) && NoTwoFailuresInARow(calls)
        ensures LeaseKept(ttl, start, calls)
      {
        RoomKeepsKey(ttl, prompt, hang, SetLife(ttl), FirstCall(ttl, start), calls);
      }
    } else {
      FirstCallFails(ttl, prompt, hang);
    }
  }

  lemma StaysLiveStep(ttl: int, deadline: int, c: Clock, a: Call, rest: seq<Call>)
    ensures StaysLive(ttl, deadline, c, [a] + rest) <==>
      && c.begin + (if a.fate.Missed? then 0 else a.delay) < deadline
      && StaysLive(ttl, DeadlineAfter(ttl, deadline, c, a), NextCall(ttl, c, a), rest)
  {
    assert ([a] + rest)[1..] == rest;
  }

  lemma LastCallLate(ttl: int, deadline: int, c: Clock, a: Call)
    requires !a.fate.Missed? && c.begin + a.delay >= deadline
    ensures !StaysLive(ttl, deadline, c, [a])
  {
  }

  lemma FirstCallFails(ttl: int, prompt: nat, hang: nat)
    requires ttl > 0 && prompt <= CALL_TIMEOUT && hang <= CALL_TIMEOUT
    requires !RoomForOneFailure(ttl, prompt, hang)
    ensures !SurvivesSingleFailures(ttl, prompt, hang)
  {
    var c, miss: Call, late: Call := FirstCall(ttl, prompt), Attempt(Missed, 0, hang), Attempt(Answered, prompt, prompt);
    NextCallTime(ttl, c, miss);
    LastCallLate(ttl, SetLife(ttl), NextCall(ttl, c, miss), late);
    StaysLiveStep(ttl, SetLife(ttl), c, miss, [late]);
    var calls: seq<Call> := [miss] + [late];
    assert !LeaseKept(ttl, prompt, calls);
    assert Within(calls, prompt, hang) && NoTwoFailuresInARow(calls);
  }

  /** A renewal may hang for as long as its timeout; a lease survives that from four
      seconds on, if all other calls are prompt. */
  lemma HangingCallSurvivedFromFourSeconds(ttl: int)
    requires ttl > 0
    ensures SurvivesSingleFailures(ttl, 0, CALL_TIMEOUT) <==> ttl >= 4 * SECOND
  {
    SurvivesExactlyWithRoom(ttl, 0, CALL_TIMEOUT);
  }

  /** A renewal that fails at once is survived from two seconds on. */
  lemma PromptFailureSurvivedFromTwoSeconds(ttl: int)
    requires ttl > 0
    ensures SurvivesSingleFailures(ttl, 0, 0) <==> ttl >= 2 * SECOND
  {
    SurvivesExactlyWithRoom(ttl, 0, 0);
  }

  /** Two failures in a row cost the lease at any ttl, even if they take no time: after a
      renewal the second next call comes, give or take two nanoseconds, when the renewed
      life is over. */
  lemma TwoFailuresLoseLease(ttl: int)
    requires ttl > 0
    ensures !LeaseKept(ttl, 0, [Attempt(Answered, 0, 0), Attempt(Missed, 0, 0), Attempt(Missed, 0, 0), Attempt(Answered, 2, 2)])
  {
    var ok: Call, miss: Call, late: Call := Attempt(Answered, 0, 0), Attempt(Missed, 0, 0), Attempt(Answered, 2, 2);
    var c := FirstCall(ttl, 0);
    var c', deadline := NextCall(ttl, c, ok), c.begin + RenewLife(ttl);
    var c'' := NextCall(ttl, c', miss);
    NextCallTime(ttl, c, ok);
    NextCallTime(ttl, c', miss);
    NextCallTime(ttl, c'', miss);
    assert 3 * RenewInterval(ttl) + 2 >= ttl >= RenewLife(ttl);
    LastCallLate(ttl, deadline, NextCall(ttl, c'', miss), late);
    StaysLiveStep(ttl, deadline, c'', miss, [late]);
    StaysLiveStep(ttl, deadline, c', miss, [miss] + [late]);
    StaysLiveStep(ttl, SetLife(ttl), c, ok, [miss] + ([miss] + [late]));
    assert [ok, miss, miss, late] == [ok] + ([miss] + ([miss] + [late]));
  }

  // ----------------------------------------------------------- the loop as a function

  /** The key, and whether the loop has given up, after the given calls. */
  function RenewRun(k: Key, value: Instance, ttl: int, c: Clock, calls: seq<Call>): (Key, bool)
    decreases |calls|
  {
    if calls == [] then
      (k, false)
    else
      var a := calls[0];
      var at := c.begin + a.delay;
      if a.fate.Answered? && !HeldBy(k, at, value) then
        (k, true)
      else
        RenewRun(if a.fate.Missed? then k else EvalRenew(k, at, value, RenewLife(ttl)), value, ttl,
                 NextCall(ttl, c, a), calls[1..])
  }

  /** The deadline after the last script. */
  function FinalDeadline(ttl: int, deadline: int, c: Clock, calls: seq<Call>): int
    decreases |calls|
  {
    if calls == [] then deadline
    else FinalDeadline(ttl, DeadlineAfter(ttl, deadline, c, calls[0]), NextCall(ttl, c, calls[0]), calls[1..])
  }

  /** A lease that stays live is never reported lost, and its holder still has the key
      at the end, up to the deadline of the last script; only a ttl below one millisecond
      makes that script delete it. */
  lemma {:induction false} LiveLeaseNotGivenUp(value: Instance, ttl: int, deadline: int, c: Clock, calls: seq<Call>)
    requires ttl > 0 && StaysLive(ttl, deadline, c, calls) && ClockOk(ttl, c)
    ensures RenewRun(Owned(value, deadline), value, ttl, c, calls) ==
      (if ttl >= MILLISECOND || forall a | a in calls :: a.fate.Missed?
       then (Owned(value, FinalDeadline(ttl, deadline, c, calls)), false)
       else (Absent, false))
    decreases |calls|
  {
    if calls != [] {
      var a, rest := calls[0], calls[1..];
      NextCallTime(ttl, c, a);
      assert forall b | b in calls :: b == a || b in rest;
      assert forall b | b in rest :: b in calls;
      if ttl >= MILLISECOND || a.fate.Missed? {
        LiveLeaseNotGivenUp(value, ttl, DeadlineAfter(ttl, deadline, c, a), NextCall(ttl, c, a), rest);
      } else {
        assert rest == [];
        assert a in calls;
      }
    }
  }

  /** The loop's next script, if it sends one, finds the key not its own. */
  predicate Gone(k: Key, value: Instance, c: Clock, calls: seq<Call>) {
    k.Absent? || k.owner != value || (calls != [] ==> k.deadline <= c.begin + calls[0].delay)
  }

  /** A lease that is gone is reported lost exactly if one of the calls is answered, and the key is left alone. */
  lemma {:induction false} GoneIsReported(k: Key, value: Instance, ttl: int, c: Clock, calls: seq<Call>)
    requires Gone(k, value, c, calls) && ClockOk(ttl, c)
    ensures RenewRun(k, value, ttl, c, calls) == (k, exists a | a in calls :: a.fate.Answered?)
    decreases |calls|
  {
    if calls != [] {
      var a, rest := calls[0], calls[1..];
      NextCallTime(ttl, c, a);
      assert !HeldBy(k, c.begin + a.delay, value);
      assert a in calls && forall b | b in calls :: b == a || b in rest;
      if !a.fate.Answered? {
        GoneIsReported(k, value, ttl, NextCall(ttl, c, a), rest);
        assert forall b | b in rest :: b in calls;
      }
    }
  }

  // ------------------------------------------------------- the Go types and methods

  class RedisKey {
    var key: Key

    constructor ()
      ensures key == Absent
    {
      key := Absent;
    }

    /** SET key value NX EX seconds */
    method Set(now: int, value: Instance, life: int) returns (ok: bool)
      modifies this
      ensures key == SetNX(old(key), now, value, life)
      ensures ok == !Live(old(key), now)
    {
      ok := !Live(key, now);
      if ok {
        key := Owned(value, now + life);
      }
    }

    /** GET key; the empty answer is Absent. */
    method Get(now: int) returns (owner: Key)
      ensures owner == if Live(key, now) then key else Absent
    {
      if Live(key, now) {
        owner := key;
      } else {
        owner := Absent;
      }
    }

    /** The renew script; it answers 1 when it extended the key. */
    method Renew(now: int, value: Instance, life: int) returns (reply: int)
      modifies this
      ensures key == EvalRenew(old(key), now, value, life)
      ensures reply == if HeldBy(old(key), now, value) then 1 else 0
    {
      var current := Get(now);
      if current.Owned? && current.owner == value {
        key := if life <= 0 then Absent else Owned(value, now + life);
        reply := 1;
      } else {
        reply := 0;
      }
    }

    /** The release script. */
    method Delete(now: int, value: Instance)
      modifies this
      ensures key == EvalRelease(old(key), now, value)
    {
      var current := Get(now);
      if current.Owned? && current.owner == value {
        key := Absent;
      }
    }
  }

  datatype AcquireError = KeyEmpty | BadTTL | NotLeader

  class Lease {
    const redis: RedisKey
    const value: Instance
    const ttl: int
    var released: bool

    constructor (redis: RedisKey, value: Instance, ttl: int)
      ensures this.redis == redis && this.value == value && this.ttl == ttl && !released
    {
      this.redis, this.value, this.ttl, released := redis, value, ttl, false;
    }

    /** `Acquire`: a lease comes back exactly when the arguments are sound and the key
        was not live, and then the instance holds the key for the whole-second life. */
    static method Acquire(redis: RedisKey, name: string, value: Instance, ttl: int, now: int)
      returns (lease: Lease?, error: AcquireError)
      modifies redis
      ensures lease != null <==> name != "" && ttl > 0 && !Live(old(redis.key), now)
      ensures lease == null ==>
        redis.key == old(redis.key)
        && error == if name == "" then KeyEmpty else if ttl <= 0 then BadTTL else NotLeader
      ensures lease != null ==>
        && fresh(lease) && lease.redis == redis && lease.value == value && lease.ttl == ttl && !lease.released
        && HeldBy(redis.key, now, value) && redis.key.deadline == now + SetLife(ttl)
    {
      lease, error := null, NotLeader;
      if name == "" {
        error := KeyEmpty;
        return;
      }
      if ttl <= 0 {
        error := BadTTL;
        return;
      }
      var seconds := ttl / SECOND;
      if seconds <= 0 {
        seconds := 1;
      }
      var ok := redis.Set(now, value, seconds * SECOND);
      if ok {
        lease := new Lease(redis, value, ttl);
      }
    }

    /** Idempotent: only the first call reaches the server. */
    method Release(now: int)
      modifies this, redis
      ensures released
      ensures redis.key == if old(released) then old(redis.key) else EvalRelease(old(redis.key), now, value)
    {
      if released {
        return;
      }
      released := true;
      redis.Delete(now, value);
    }

    method IsHeld(now: int) returns (held: bool)
      ensures held <==> !released && HeldBy(redis.key, now, value)
    {
      if released {
        return false;
      }
      var current := redis.Get(now);
      held := current.Owned? && current.owner == value;
    }

    /** `renewLoop`, started at `start`, against given fates of its calls: it ends early,
        reporting the lease lost, at the first script that answers 0. */
    method RenewLoop(start: int, calls: seq<Call>) returns (lost: bool)
      modifies redis
      ensures (redis.key, lost) == RenewRun(old(redis.key), value, ttl, FirstCall(ttl, start), calls)
    {
      var interval := ttl / 3;
      if interval < MIN_RENEW_INTERVAL {
        interval := MIN_RENEW_INTERVAL;
      }
      var begin, tick, i := start + interval, start + 2 * interval, 0;
      lost := false;
      while i < |calls| && !lost
        invariant 0 <= i <= |calls|
        invariant RenewRun(old(redis.key), value, ttl, FirstCall(ttl, start), calls)
          == if lost then (redis.key, true) else RenewRun(redis.key, value, ttl, Clock(begin, tick), calls[i..])
        decreases |calls| - i, !lost
      {
        assert calls[i..][0] == calls[i] && calls[i..][1..] == calls[i + 1..];
        if !calls[i].fate.Missed? {
          var reply := redis.Renew(begin + calls[i].delay, value, ttl / MILLISECOND * MILLISECOND);
          lost := calls[i].fate.Answered? && reply == 0;
        }
        var end := begin + calls[i].duration;
        if tick <= end {
          begin, tick := end, NextTick(tick, interval, end);
        } else {
          begin, tick := tick, tick + interval;
        }
        i := i + 1;
      }
    }
  }
}

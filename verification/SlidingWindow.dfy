/** The Redis sliding-window limiter: one sorted set per client holds the admission
    times of the last window; a script trims it, counts it and adds to it.  Times are
    milliseconds since the epoch. */
module SlidingWindow {
  import opened Sets

  type Client = string

  datatype Limits = Limits(rate: int, window: int)

  /** A sorted-set member is the admission time and a random suffix; its score is the
      time.  Adding a member that is already there changes nothing. */
  datatype Member = Member(score: int, salt: int)

  /** `deadline` is what the last PEXPIRE set; it matters only while members remain. */
  datatype Log = Log(members: set<Member>, deadline: int)

  const EMPTY_LOG := Log({}, 0)

  /** ZREMRANGEBYSCORE key 0 (now - window) */
  function Trim(l: Limits, log: Log, now: int): Log {
    log.(members := set m | m in log.members && !(0 <= m.score <= now - l.window))
  }

  function Admits(l: Limits, log: Log, now: int): bool {
    |Trim(l, log, now).members| < l.rate
  }

  /** The whole script. */
  function AfterScript(l: Limits, log: Log, now: int, salt: int): Log {
    if Admits(l, log, now)
    then Log(Trim(l, log, now).members + {Member(now, salt)}, now + l.window)
    else Trim(l, log, now)
  }

  function Remaining(l: Limits, log: Log, now: int): int {
    var left := l.rate - |Trim(l, log, now).members|;
    if left < 0 then 0 else left
  }

  // ------------------------------------------------------------------------- runs

  /** `Expire` is Redis dropping the key, at any moment from its deadline on. */
  datatype Event = Call(at: int, salt: int) | Query(at: int) | Expire(at: int)
  datatype Output = Allowed(ok: bool) | Left(n: int) | Silent

  function OutputOf(l: Limits, log: Log, e: Event): Output {
    match e
    case Call(at, _) => Allowed(Admits(l, log, at))
    case Query(at) => Left(Remaining(l, log, at))
    case Expire(_) => Silent
  }

  function Step(l: Limits, log: Log, e: Event): Log {
    match e
    case Call(at, salt) => AfterScript(l, log, at, salt)
    case Query(at) => Trim(l, log, at)
    case Expire(_) => EMPTY_LOG
  }

  function Outputs(l: Limits, log: Log, events: seq<Event>): (r: seq<Output>)
    ensures |r| == |events|
    decreases |events|
  {
    if events == [] then []
    else [OutputOf(l, log, events[0])] + Outputs(l, Step(l, log, events[0]), events[1..])
  }

  /** Clocks do not go back, and keys do not expire early. */
  ghost predicate Possible(l: Limits, log: Log, events: seq<Event>, clock: int)
    decreases |events|
  {
    events != [] ==>
      && clock <= events[0].at
      && (events[0].Expire? ==> log.deadline <= events[0].at)
      && Possible(l, Step(l, log, events[0]), events[1..], events[0].at)
  }

  // -------------------------------------------- the reference: a log never trimmed

  function Recent(l: Limits, added: set<Member>, now: int): set<Member> {
    set m | m in added && m.score > now - l.window
  }

  function RefAdmits(l: Limits, added: set<Member>, now: int): bool {
    |Recent(l, added, now)| < l.rate
  }

  function RefOutput(l: Limits, added: set<Member>, e: Event): Output {
    match e
    case Call(at, _) => Allowed(RefAdmits(l, added, at))
    case Query(at) =>
      var left := l.rate - |Recent(l, added, at)|;
      Left(if left < 0 then 0 else left)
    case Expire(_) => Silent
  }

  function RefStep(l: Limits, added: set<Member>, e: Event): set<Member> {
    if e.Call? && RefAdmits(l, added, e.at) then added + {Member(e.at, e.salt)} else added
  }

  function RefOutputs(l: Limits, added: set<Member>, events: seq<Event>): (r: seq<Output>)
    ensures |r| == |events|
    decreases |events|
  {
    if events == [] then []
    else [RefOutput(l, added, events[0])] + RefOutputs(l, RefStep(l, added, events[0]), events[1..])
  }

  /** The stored set against everything ever added. */
  ghost predicate Covers(l: Limits, log: Log, added: set<Member>, clock: int) {
    && log.members <= added
    && (forall m | m in added :: 0 <= m.score <= clock)
    && (forall m | m in added && m.score > clock - l.window :: m in log.members)
    && (forall m | m in log.members :: m.score + l.window <= log.deadline)
  }

  lemma TrimIsRecent(l: Limits, log: Log, added: set<Member>, clock: int, now: int)
    requires l.window > 0 && Covers(l, log, added, clock) && clock <= now
    ensures Trim(l, log, now).members == Recent(l, added, now)
  {
  }

  lemma StepKeepsCovers(l: Limits, log: Log, added: set<Member>, e: Event, clock: int)
    requires l.window > 0 && 0 <= clock <= e.at && Covers(l, log, added, clock)
    requires e.Expire? ==> log.deadline <= e.at
    ensures Covers(l, Step(l, log, e), RefStep(l, added, e), e.at)
    ensures OutputOf(l, log, e) == RefOutput(l, added, e)
  {
    TrimIsRecent(l, log, added, clock, e.at);
  }

  /** Trimming and key expiry are unobservable: every answer is the one the untrimmed
      history of admissions gives. */
  lemma {:induction false} MatchesReference(l: Limits, log: Log, added: set<Member>, events: seq<Event>, clock: int)
    requires l.window > 0 && 0 <= clock && Covers(l, log, added, clock) && Possible(l, log, events, clock)
    ensures Outputs(l, log, events) == RefOutputs(l, added, events)
    decreases |events|
  {
    if events != [] {
      StepKeepsCovers(l, log, added, events[0], clock);
      MatchesReference(l, Step(l, log, events[0]), RefStep(l, added, events[0]), events[1..], events[0].at);
    }
  }

  lemma LimiterIsReference(l: Limits, events: seq<Event>)
    requires l.window > 0 && Possible(l, EMPTY_LOG, events, 0)
    ensures Outputs(l, EMPTY_LOG, events) == RefOutputs(l, {}, events)
  {
    MatchesReference(l, EMPTY_LOG, {}, events, 0);
  }

  // ---------------------------------------------------------- expiry unobservable

  function WithoutExpiry(events: seq<Event>): seq<Event> {
    if events == [] then []
    else (if events[0].Expire? then [] else [events[0]]) + WithoutExpiry(events[1..])
  }

  function Heard(outputs: seq<Output>): seq<Output> {
    if outputs == [] then []
    else (if outputs[0].Silent? then [] else [outputs[0]]) + Heard(outputs[1..])
  }

  lemma {:induction false} ReferenceIgnoresExpiry(l: Limits, added: set<Member>, events: seq<Event>)
    ensures Heard(RefOutputs(l, added, events)) == RefOutputs(l, added, WithoutExpiry(events))
    decreases |events|
  {
    if events != [] {
      var e, rest := events[0], events[1..];
      ReferenceIgnoresExpiry(l, RefStep(l, added, e), rest);
      assert RefOutputs(l, added, events)[1..] == RefOutputs(l, RefStep(l, added, e), rest);
      if e.Expire? {
        assert WithoutExpiry(events) == WithoutExpiry(rest);
      } else {
        assert ([e] + WithoutExpiry(rest))[1..] == WithoutExpiry(rest);
      }
    }
  }

  lemma {:induction false} PossibleWithoutExpiry(l: Limits, log: Log, log': Log, events: seq<Event>, clock: int)
    requires Possible(l, log, events, clock)
    ensures Possible(l, log', WithoutExpiry(events), clock)
    decreases |events|
  {
    if events != [] {
      var e, rest := events[0], WithoutExpiry(events[1..]);
      if e.Expire? {
        PossibleWithoutExpiry(l, Step(l, log, e), log', events[1..], e.at);
        assert WithoutExpiry(events) == rest;
        EarlierClock(l, log', rest, e.at, clock);
      } else {
        PossibleWithoutExpiry(l, Step(l, log, e), Step(l, log', e), events[1..], e.at);
        assert WithoutExpiry(events)[0] == e && WithoutExpiry(events)[1..] == rest;
      }
    }
  }

  lemma EarlierClock(l: Limits, log: Log, events: seq<Event>, clock: int, earlier: int)
    requires Possible(l, log, events, clock) && earlier <= clock
    ensures Possible(l, log, events, earlier)
  {
  }

  /** Dropping the key at its PEXPIRE deadline, at any later moment, or never, gives
      the same answers. */
  lemma ExpiryUnobservable(l: Limits, events: seq<Event>)
    requires l.window > 0 && Possible(l, EMPTY_LOG, events, 0)
    ensures Heard(Outputs(l, EMPTY_LOG, events)) == Outputs(l, EMPTY_LOG, WithoutExpiry(events))
  {
    LimiterIsReference(l, events);
    PossibleWithoutExpiry(l, EMPTY_LOG, EMPTY_LOG, events, 0);
    LimiterIsReference(l, WithoutExpiry(events));
    ReferenceIgnoresExpiry(l, {}, events);
  }

  // ------------------------------------------------------------- the window bound

  function Span(added: set<Member>, lo: int, hi: int): set<Member> {
    set m | m in added && lo < m.score <= hi
  }

  /** The span of one window that ends at `x`. */
  function WindowAt(l: Limits, added: set<Member>, x: int): set<Member> {
    Span(added, x - l.window, x)
  }

  /** Admitted calls with times in (lo, hi]. */
  function Admitted(l: Limits, added: set<Member>, events: seq<Event>, lo: int, hi: int): nat
    decreases |events|
  {
    if events == [] then 0
    else
      (if events[0].Call? && lo < events[0].at <= hi && RefAdmits(l, added, events[0].at) then 1 else 0)
      + Admitted(l, RefStep(l, added, events[0]), events[1..], lo, hi)
  }

  /** Those among them whose member (time and suffix) had been added before. */
  function Collided(l: Limits, added: set<Member>, events: seq<Event>, lo: int, hi: int): nat
    decreases |events|
  {
    if events == [] then 0
    else
      (if events[0].Call? && lo < events[0].at <= hi && RefAdmits(l, added, events[0].at)
          && Member(events[0].at, events[0].salt) in added then 1 else 0)
      + Collided(l, RefStep(l, added, events[0]), events[1..], lo, hi)
  }

  ghost predicate Times(events: seq<Event>, clock: int) {
    events != [] ==> clock <= events[0].at && Times(events[1..], events[0].at)
  }

  function Cap(l: Limits): nat {
    if l.rate > 0 then l.rate else 0
  }

  ghost predicate WindowsWithinRate(l: Limits, added: set<Member>) {
    forall x :: |WindowAt(l, added, x)| <= Cap(l)
  }

  lemma StepKeepsWindows(l: Limits, added: set<Member>, e: Event, clock: int)
    requires l.window > 0 && clock <= e.at && WindowsWithinRate(l, added)
    requires forall m | m in added :: m.score <= clock
    ensures WindowsWithinRate(l, RefStep(l, added, e))
  {
    var added' := RefStep(l, added, e);
    forall x ensures |WindowAt(l, added', x)| <= Cap(l) {
      if added' != added && e.at <= x {
        var m := Member(e.at, e.salt);
        var recent := Recent(l, added, e.at);
        SubsetSize(WindowAt(l, added', x), recent + {m});
        assert |recent + {m}| <= |recent| + 1;
      } else {
        assert WindowAt(l, added', x) == WindowAt(l, added, x);
      }
    }
  }

  /** Counting admissions beyond those already in the log, window by window. */
  lemma {:induction false} WindowBound(l: Limits, added: set<Member>, events: seq<Event>, clock: int, x: int)
    requires l.window > 0 && Times(events, clock) && WindowsWithinRate(l, added)
    requires forall m | m in added :: m.score <= clock
    ensures |WindowAt(l, added, x)| + Admitted(l, added, events, x - l.window, x)
         <= Cap(l) + Collided(l, added, events, x - l.window, x)
    decreases |events|
  {
    if events == [] {
      assert |WindowAt(l, added, x)| <= Cap(l);
    } else {
      var e := events[0];
      var added' := RefStep(l, added, e);
      StepKeepsWindows(l, added, e, clock);
      WindowBound(l, added', events[1..], e.at, x);
      var m := if e.Call? then Member(e.at, e.salt) else Member(0, 0);
      if added' != added && x - l.window < e.at <= x {
        assert WindowAt(l, added', x) == WindowAt(l, added, x) + {m};
      } else {
        assert WindowAt(l, added', x) == WindowAt(l, added, x);
      }
    }
  }

  lemma {:induction false} PossibleTimes(l: Limits, log: Log, events: seq<Event>, clock: int)
    requires Possible(l, log, events, clock)
    ensures Times(events, clock)
    decreases |events|
  {
    if events != [] {
      PossibleTimes(l, Step(l, log, events[0]), events[1..], events[0].at);
    }
  }

  /** Calls answered yes with times in (lo, hi]. */
  function AnsweredYes(events: seq<Event>, outputs: seq<Output>, lo: int, hi: int): nat
    requires |events| == |outputs|
  {
    if events == [] then 0
    else
      (if outputs[0] == Allowed(true) && lo < events[0].at <= hi then 1 else 0)
      + AnsweredYes(events[1..], outputs[1..], lo, hi)
  }

  lemma {:induction false} AdmittedAreAnswers(l: Limits, added: set<Member>, events: seq<Event>, lo: int, hi: int)
    ensures AnsweredYes(events, RefOutputs(l, added, events), lo, hi) == Admitted(l, added, events, lo, hi)
    decreases |events|
  {
    if events != [] {
      AdmittedAreAnswers(l, RefStep(l, added, events[0]), events[1..], lo, hi);
    }
  }

  /** In every half-open span of one window the limiter answers yes at most `rate`
      times, plus once for each admission whose random member was not new. */
  lemma AtMostRatePerWindow(l: Limits, events: seq<Event>, x: int)
    requires l.window > 0 && Possible(l, EMPTY_LOG, events, 0)
    ensures AnsweredYes(events, Outputs(l, EMPTY_LOG, events), x - l.window, x)
         <= Cap(l) + Collided(l, {}, events, x - l.window, x)
  {
    PossibleTimes(l, EMPTY_LOG, events, 0);
    forall y ensures |WindowAt(l, {}, y)| == 0 {
      assert WindowAt(l, {}, y) == {};
    }
    WindowBound(l, {}, events, 0, x);
    LimiterIsReference(l, events);
    AdmittedAreAnswers(l, {}, events, x - l.window, x);
  }

  ghost predicate WithinRate(l: Limits, events: seq<Event>, x: int) {
    AnsweredYes(events, Outputs(l, EMPTY_LOG, events), x - l.window, x) <= Cap(l)
  }

  /** The plain bound: no run answers yes more than `rate` times in a window. */
  ghost predicate BoundedByRate(l: Limits) {
    forall events: seq<Event>, x: int | Possible(l, EMPTY_LOG, events, 0) :: WithinRate(l, events, x)
  }

  /** At a rate of one an admission leaves no room for a second in its millisecond. */
  lemma {:induction false} NoCollisions(l: Limits, added: set<Member>, events: seq<Event>, lo: int, hi: int)
    requires l.window > 0 && l.rate <= 1
    ensures Collided(l, added, events, lo, hi) == 0
    decreases |events|
  {
    if events != [] {
      var e := events[0];
      NoCollisions(l, RefStep(l, added, e), events[1..], lo, hi);
      if e.Call? && Member(e.at, e.salt) in added {
        assert Member(e.at, e.salt) in Recent(l, added, e.at);
      }
    }
  }

  function Repeated(e: Event, n: nat): (r: seq<Event>)
    ensures |r| == n
  {
    if n == 0 then [] else [e] + Repeated(e, n - 1)
  }

  lemma {:induction false} RepeatedPossible(l: Limits, log: Log, t: int, salt: int, n: nat, clock: int)
    requires clock <= t
    ensures Possible(l, log, Repeated(Call(t, salt), n), clock)
    decreases n
  {
    if n > 0 {
      var e := Call(t, salt);
      assert Repeated(e, n)[1..] == Repeated(e, n - 1);
      RepeatedPossible(l, Step(l, log, e), t, salt, n - 1, t);
    }
  }

  /** Any number of calls in one millisecond pass if they draw the same suffix: together
      they add a single member. */
  lemma {:induction false} CollisionsEscapeTheCount(l: Limits, added: set<Member>, t: int, salt: int, n: nat)
    requires l.window > 0 && l.rate >= 2 && added <= {Member(t, salt)}
    ensures Admitted(l, added, Repeated(Call(t, salt), n), t - l.window, t) == n
    decreases n
  {
    if n > 0 {
      var e := Call(t, salt);
      assert Repeated(e, n)[1..] == Repeated(e, n - 1);
      SubsetSize(Recent(l, added, t), {Member(t, salt)});
      CollisionsEscapeTheCount(l, added + {Member(t, salt)}, t, salt, n - 1);
    }
  }

  /** The plain bound holds on every run if and only if the rate is at most one. */
  lemma BoundedByRateExactly(l: Limits)
    requires l.window > 0
    ensures BoundedByRate(l) <==> l.rate <= 1
  {
    if l.rate <= 1 {
      forall events: seq<Event>, x: int | Possible(l, EMPTY_LOG, events, 0)
        ensures WithinRate(l, events, x)
      {
        AtMostRatePerWindow(l, events, x);
        NoCollisions(l, {}, events, x - l.window, x);
      }
    } else {
      var events := Repeated(Call(1, 1), l.rate + 1);
      RepeatedPossible(l, EMPTY_LOG, 1, 1, l.rate + 1, 0);
      CollisionsEscapeTheCount(l, {}, 1, 1, l.rate + 1);
      LimiterIsReference(l, events);
      AdmittedAreAnswers(l, {}, events, 1 - l.window, 1);
      assert !WithinRate(l, events, 1);
    }
  }

  // -------------------------------------------------------------------- Remaining

  ghost predicate FreshSalts(log: Log, at: int, salts: seq<int>) {
    && (forall i | 0 <= i < |salts| :: Member(at, salts[i]) !in log.members)
    && (forall i, j | 0 <= i < |salts| && 0 <= j < |salts| && salts[i] == salts[j] :: i == j)
  }

  function CallsAt(at: int, salts: seq<int>): seq<Event> {
    if salts == [] then [] else [Call(at, salts[0])] + CallsAt(at, salts[1..])
  }

  /** `Remaining` is exactly the number of further calls that pass at that instant: of
      any burst with fresh members the first that many pass and the others do not. */
  lemma {:induction false} RemainingIsExact(l: Limits, log: Log, at: int, salts: seq<int>, i: nat)
    requires l.window > 0 && at >= 0 && FreshSalts(log, at, salts) && i < |salts|
    ensures |Outputs(l, log, CallsAt(at, salts))| == |salts|
    ensures Outputs(l, log, CallsAt(at, salts))[i] == Allowed(i < Remaining(l, log, at))
    decreases |salts|
  {
    var events := CallsAt(at, salts);
    assert events[0] == Call(at, salts[0]) && events[1..] == CallsAt(at, salts[1..]);
    var log' := Step(l, log, events[0]);
    var trimmed := Trim(l, log, at);
    var m := Member(at, salts[0]);
    if Admits(l, log, at) {
      assert Trim(l, log', at).members == trimmed.members + {m};
      assert Remaining(l, log', at) == Remaining(l, log, at) - 1;
    } else {
      assert Trim(l, log', at).members == trimmed.members;
    }
    forall k | 0 <= k < |salts[1..]| ensures Member(at, salts[1..][k]) !in log'.members {
      assert salts[1..][k] == salts[k + 1];
    }
    if |salts| > 1 {
      RemainingIsExact(l, log', at, salts[1..], if i > 0 then i - 1 else 0);
    }
  }

  function LogAfter(l: Limits, log: Log, events: seq<Event>): Log
    decreases |events|
  {
    if events == [] then log else LogAfter(l, Step(l, log, events[0]), events[1..])
  }

  function LastTime(events: seq<Event>, clock: int): int {
    if events == [] then clock else events[|events| - 1].at
  }

  /** `Remaining` trims and counts in two commands.  Whatever comes between them, the count is
      the one that the whole of `Remaining` would find when the last of it came. */
  lemma {:induction false} CountedIsRemaining(l: Limits, log: Log, events: seq<Event>, now: int)
    requires l.window > 0
    ensures var counted := LogAfter(l, Trim(l, log, now), events);
      Remaining(l, counted, LastTime(events, now)) == var left := l.rate - |counted.members|; if left < 0 then 0 else left
    decreases |events|
  {
    var trimmed := Trim(l, log, now);
    assert Trim(l, trimmed, now).members == trimmed.members;
    if events != [] {
      var e, rest := events[0], events[1..];
      var log' := Step(l, trimmed, e);
      assert Trim(l, log', e.at).members == log'.members;
      assert Trim(l, log', e.at) == log';
      CountedIsRemaining(l, log', rest, e.at);
    }
  }

  // ------------------------------------------------------------------- the Go type

  /** The limiter together with the sorted sets it keeps in Redis, one per client. */
  class RedisRateLimiter {
    const limits: Limits
    var keys: map<Client, Log>

    constructor (limits: Limits)
      ensures this.limits == limits && keys == map[]
    {
      this.limits, keys := limits, map[];
    }

    function LogOf(c: Client): Log
      reads this
    {
      if c in keys then keys[c] else EMPTY_LOG
    }

    method Zremrangebyscore(c: Client, max: int)
      modifies this`keys
      ensures LogOf(c) == old(LogOf(c)).(members := set m | m in old(LogOf(c)).members && !(0 <= m.score <= max))
      ensures forall d | d != c :: LogOf(d) == old(LogOf(d))
    {
      var log := LogOf(c);
      keys := keys[c := log.(members := set m | m in log.members && !(0 <= m.score <= max))];
    }

    /** `Allow`: the script runs atomically; `salt` is its random number. */
    method Allow(c: Client, now: int, salt: int) returns (ok: bool)
      modifies this`keys
      ensures LogOf(c) == Step(limits, old(LogOf(c)), Call(now, salt))
      ensures Allowed(ok) == OutputOf(limits, old(LogOf(c)), Call(now, salt))
      ensures forall d | d != c :: LogOf(d) == old(LogOf(d))
    {
      Zremrangebyscore(c, now - limits.window);
      var count := |LogOf(c).members|;
      ok := count < limits.rate;
      if ok {
        keys := keys[c := LogOf(c).(members := LogOf(c).members + {Member(now, salt)})];
        keys := keys[c := LogOf(c).(deadline := now + limits.window)];
      }
    }

    method Remaining(c: Client, now: int) returns (n: int)
      modifies this`keys
      ensures LogOf(c) == Step(limits, old(LogOf(c)), Query(now))
      ensures Left(n) == OutputOf(limits, old(LogOf(c)), Query(now))
      ensures forall d | d != c :: LogOf(d) == old(LogOf(d))
    {
      Zremrangebyscore(c, now - limits.window);
      n := limits.rate - |LogOf(c).members|;
      if n < 0 {
        n := 0;
      }
    }
  }
}

/**
 * The circuit breaker (utility/resilience/resilience.go). Every operation holds the
 * breaker's mutex, so a run is a log of operations in any interleaving of any callers.
 */
module Resilience {

  datatype State = Closed | Open | HalfOpen

  datatype Event = Call(at: int) | Success | Failure(at: int)

  datatype Settings = Settings(threshold: int, resetTimeout: int)

  const HALF_OPEN_MAX := 2

  datatype Breaker = Breaker(state: State, failures: nat, successes: nat, lastFailure: int)

  const FRESH := Breaker(Closed, 0, 0, 0)

  function Allowed(s: Settings, b: Breaker, now: int): bool {
    b.state != Open || now - b.lastFailure > s.resetTimeout
  }

  function Step(s: Settings, b: Breaker, e: Event): Breaker {
    match e
    case Call(now) =>
      if b.state == Open && Allowed(s, b, now) then b.(state := HalfOpen, successes := 0) else b
    case Success =>
      if b.state == HalfOpen then
        var counted := b.(successes := b.successes + 1);
        if counted.successes >= HALF_OPEN_MAX then counted.(state := Closed, failures := 0) else counted
      else if b.state == Closed then b.(failures := 0)
      else b
    case Failure(now) =>
      var counted := b.(failures := b.failures + 1, lastFailure := now);
      if (b.state == Closed && counted.failures >= s.threshold) || b.state == HalfOpen
      then counted.(state := Open) else counted
  }

  function RunFrom(s: Settings, b: Breaker, log: seq<Event>): Breaker {
    if log == [] then b else Step(s, RunFrom(s, b, log[..|log| - 1]), log[|log| - 1])
  }

  function After(s: Settings, log: seq<Event>): Breaker {
    RunFrom(s, FRESH, log)
  }

  // ---------------------------------------------------------------- reading the log

  /** Failures since the last success, whatever the state. */
  function TrailingFailures(log: seq<Event>): nat {
    if log == [] then 0
    else
      var n := |log| - 1;
      match log[n]
      case Success => 0
      case Failure(_) => TrailingFailures(log[..n]) + 1
      case Call(_) => TrailingFailures(log[..n])
  }

  function CountSuccesses(log: seq<Event>): nat {
    if log == [] then 0
    else CountSuccesses(log[..|log| - 1]) + if log[|log| - 1].Success? then 1 else 0
  }

  predicate HasFailure(log: seq<Event>) {
    log != [] && (log[|log| - 1].Failure? || HasFailure(log[..|log| - 1]))
  }

  /** Time of the last failure. */
  function LastFailureAt(log: seq<Event>): int
    requires HasFailure(log)
  {
    var n := |log| - 1;
    if log[n].Failure? then log[n].at else LastFailureAt(log[..n])
  }

  // ---------------------------------------------------------------- closed

  /** A closed breaker counts the failures since the last success, and they are below the threshold. */
  lemma {:induction false} ClosedCounts(s: Settings, log: seq<Event>)
    requires After(s, log).state == Closed
    ensures After(s, log).failures == TrailingFailures(log)
    ensures TrailingFailures(log) == 0 || TrailingFailures(log) < s.threshold
  {
    if log != [] {
      var n := |log| - 1;
      if After(s, log[..n]).state == Closed {
        ClosedCounts(s, log[..n]);
      }
    }
  }

  /** A failure opens a closed breaker exactly when the failures since the last success reach the threshold. */
  lemma OpensExactly(s: Settings, log: seq<Event>, now: int)
    requires After(s, log).state == Closed
    ensures After(s, log + [Failure(now)]).state == (if TrailingFailures(log) + 1 >= s.threshold then Open else Closed)
  {
    ClosedCounts(s, log);
    assert (log + [Failure(now)])[..|log|] == log;
  }

  // ---------------------------------------------------------------- open

  lemma {:induction false} LastFailureKept(s: Settings, log: seq<Event>)
    ensures HasFailure(log) ==> After(s, log).lastFailure == LastFailureAt(log)
    ensures After(s, log).state != Closed ==> HasFailure(log)
  {
    if log != [] {
      LastFailureKept(s, log[..|log| - 1]);
    }
  }

  /** A call is refused exactly when the breaker is open and the latest failure, straggler or not, is recent. */
  lemma RefusedExactly(s: Settings, log: seq<Event>, now: int)
    ensures !Allowed(s, After(s, log), now) <==>
            After(s, log).state == Open && HasFailure(log) && now - LastFailureAt(log) <= s.resetTimeout
  {
    LastFailureKept(s, log);
  }

  // ---------------------------------------------------------------- after the last failure

  predicate NoFailure(log: seq<Event>) {
    !HasFailure(log)
  }

  /** Position of the first call long enough after `failedAt`, or the length. */
  function FirstTrial(s: Settings, log: seq<Event>, failedAt: int): (i: nat)
    ensures i <= |log|
    ensures i < |log| ==> log[i].Call? && log[i].at - failedAt > s.resetTimeout
    ensures forall j | 0 <= j < i :: !(log[j].Call? && log[j].at - failedAt > s.resetTimeout)
  {
    if log == [] then 0
    else
      var n := |log| - 1;
      var i := FirstTrial(s, log[..n], failedAt);
      if i < n then i
      else if log[n].Call? && log[n].at - failedAt > s.resetTimeout then n
      else n + 1
  }

  /** The state after an opening failure and operations without further failure. */
  function Recovery(s: Settings, failedAt: int, log: seq<Event>): State {
    var i := FirstTrial(s, log, failedAt);
    if i == |log| then Open
    else if CountSuccesses(log[i + 1..]) >= HALF_OPEN_MAX then Closed
    else HalfOpen
  }

  lemma {:induction false} RunConcat(s: Settings, b: Breaker, log: seq<Event>, more: seq<Event>)
    ensures RunFrom(s, b, log + more) == RunFrom(s, RunFrom(s, b, log), more)
  {
    if more == [] {
      assert log + more == log;
    } else {
      var n := |more| - 1;
      RunConcat(s, b, log, more[..n]);
      assert (log + more)[..|log + more| - 1] == log + more[..n];
    }
  }

  lemma SuccessesSnoc(log: seq<Event>, i: nat)
    requires i < |log|
    ensures CountSuccesses(log[i..]) == CountSuccesses(log[..|log| - 1][i..]) + if log[|log| - 1].Success? then 1 else 0
  {
    assert log[i..][..|log| - 1 - i] == log[..|log| - 1][i..];
  }

  /** Without failures an open breaker recovers by a late enough call and enough successes after it. */
  lemma {:induction false} RecoveryFromOpen(s: Settings, b: Breaker, log: seq<Event>)
    requires b.state == Open && NoFailure(log)
    ensures var r := RunFrom(s, b, log);
            && r.state == Recovery(s, b.lastFailure, log) && r.lastFailure == b.lastFailure
            && (r.state == HalfOpen ==> r.successes == CountSuccesses(log[FirstTrial(s, log, b.lastFailure) + 1..]))
  {
    if log != [] {
      var n := |log| - 1;
      var i := FirstTrial(s, log[..n], b.lastFailure);
      RecoveryFromOpen(s, b, log[..n]);
      if i < n {
        SuccessesSnoc(log, i + 1);
      } else {
        assert log[n + 1..] == [];
      }
    }
  }

  lemma {:induction false} ClosedStays(s: Settings, b: Breaker, log: seq<Event>)
    requires b.state == Closed && NoFailure(log)
    ensures RunFrom(s, b, log).state == Closed
  {
    if log != [] {
      ClosedStays(s, b, log[..|log| - 1]);
    }
  }

  /** Whether a failure after `log` leaves the breaker open. */
  predicate LeavesOpen(s: Settings, log: seq<Event>) {
    After(s, log).state != Closed || TrailingFailures(log) + 1 >= s.threshold
  }

  lemma OpenAfterFailure(s: Settings, log: seq<Event>, now: int)
    ensures After(s, log + [Failure(now)]).state == (if LeavesOpen(s, log) then Open else Closed)
    ensures After(s, log + [Failure(now)]).lastFailure == now
  {
    assert (log + [Failure(now)])[..|log|] == log;
    if After(s, log).state == Closed {
      ClosedCounts(s, log);
    }
  }

  /**
   * The state is read off the log from its last failure: closed if that did not open the
   * breaker, and otherwise decided by the first late enough call and the successes since.
   */
  lemma StateFromLastFailure(s: Settings, before: seq<Event>, failedAt: int, since: seq<Event>)
    requires NoFailure(since)
    ensures After(s, before + [Failure(failedAt)] + since).state ==
            if LeavesOpen(s, before) then Recovery(s, failedAt, since) else Closed
  {
    var b := After(s, before + [Failure(failedAt)]);
    OpenAfterFailure(s, before, failedAt);
    RunConcat(s, FRESH, before + [Failure(failedAt)], since);
    if b.state == Open {
      RecoveryFromOpen(s, b, since);
    } else {
      ClosedStays(s, b, since);
    }
  }

  lemma {:induction false} LastFailureSplits(log: seq<Event>)
    returns (before: seq<Event>, failedAt: int, since: seq<Event>)
    requires HasFailure(log)
    ensures log == before + [Failure(failedAt)] + since && NoFailure(since)
  {
    var n := |log| - 1;
    if log[n].Failure? {
      before, failedAt, since := log[..n], log[n].at, [];
    } else {
      var rest;
      before, failedAt, rest := LastFailureSplits(log[..n]);
      since := rest + [log[n]];
      assert since[..|rest|] == rest;
    }
  }

  /**
   * Closing takes a success, and since the last failure a call more than the reset timeout
   * later followed by exactly the required number of successes, this one included.
   */
  lemma ClosingNeedsTrial(s: Settings, log: seq<Event>, e: Event)
    returns (before: seq<Event>, failedAt: int, since: seq<Event>, i: nat)
    requires After(s, log).state != Closed && After(s, log + [e]).state == Closed
    ensures e == Success && log == before + [Failure(failedAt)] + since && NoFailure(since)
    ensures i < |since| && since[i].Call? && since[i].at - failedAt > s.resetTimeout
    ensures CountSuccesses(since[i + 1..]) + 1 == HALF_OPEN_MAX
  {
    assert (log + [e])[..|log|] == log;
    LastFailureKept(s, log);
    before, failedAt, since := LastFailureSplits(log);
    StateFromLastFailure(s, before, failedAt, since);
    var b := After(s, before + [Failure(failedAt)]);
    OpenAfterFailure(s, before, failedAt);
    RunConcat(s, FRESH, before + [Failure(failedAt)], since);
    RecoveryFromOpen(s, b, since);
    i := FirstTrial(s, since, failedAt);
  }

  // ---------------------------------------------------------------- the object and the retry loop

  class CircuitBreaker {
    const settings: Settings
    var state: State
    var failures: nat
    var successes: nat
    var lastFailure: int
    /** Every operation so far, in the order the mutex let them through. */
    ghost var log: seq<Event>

    ghost predicate Valid()
      reads this
    {
      Breaker(state, failures, successes, lastFailure) == After(settings, log)
    }

    constructor (threshold: int, resetTimeout: int)
      ensures Valid() && log == [] && settings == Settings(threshold, resetTimeout)
    {
      settings := Settings(threshold, resetTimeout);
      state, failures, successes, lastFailure := Closed, 0, 0, 0;
      log := [];
    }

    method Allow(now: int) returns (ok: bool)
      requires Valid()
      modifies this
      ensures Valid() && log == old(log) + [Call(now)]
      ensures ok == Allowed(settings, After(settings, old(log)), now)
    {
      log := log + [Call(now)];
      assert log[..|log| - 1] == old(log);
      ok := state != Open;
      if state == Open && now - lastFailure > settings.resetTimeout {
        state, successes, ok := HalfOpen, 0, true;
      }
    }

    method RecordSuccess()
      requires Valid()
      modifies this
      ensures Valid() && log == old(log) + [Success]
    {
      log := log + [Success];
      assert log[..|log| - 1] == old(log);
      match state
      case HalfOpen =>
        successes := successes + 1;
        if successes >= HALF_OPEN_MAX {
          state, failures := Closed, 0;
        }
      case Closed => failures := 0;
      case Open =>
    }

    method RecordFailure(now: int)
      requires Valid()
      modifies this
      ensures Valid() && log == old(log) + [Failure(now)]
    {
      log := log + [Failure(now)];
      assert log[..|log| - 1] == old(log);
      failures, lastFailure := failures + 1, now;
      match state
      case Closed =>
        if failures >= settings.threshold {
          state := Open;
        }
      case HalfOpen => state := Open;
      case Open =>
    }
  }

  datatype Outcome = Rejected | Succeeded(attempts: nat) | Cancelled | Exhausted(attempts: nat)

  /**
   * What the call and its context do: whether attempt `i` succeeds, and whether the context
   * is done before it or during the wait for it.
   */
  datatype Behaviour = Behaviour(succeeds: nat -> bool, cancelled: nat -> bool)

  const DEFAULT_RETRIES := 2

  function Retries(maxRetries: int): nat {
    if maxRetries < 0 then DEFAULT_RETRIES else maxRetries
  }

  /** Nothing decides the call before attempt `n`. */
  ghost predicate Undecided(f: Behaviour, n: nat) {
    && (forall i: nat | i < n :: !f.succeeds(i))
    && (forall i: nat | 0 < i < n :: !f.cancelled(i))
  }

  /**
   * Tries up to the limit, waiting and watching the context between attempts. Whatever
   * happens, the breaker learns of at most one outcome.
   */
  method Execute(cb: CircuitBreaker, f: Behaviour, maxRetries: int, started: int, ended: int)
    returns (outcome: Outcome)
    requires cb.Valid()
    modifies cb
    ensures cb.Valid()
    ensures outcome == Rejected <==> !Allowed(cb.settings, After(cb.settings, old(cb.log)), started)
    ensures cb.log == old(cb.log) + [Call(started)] +
                      match outcome
                      case Succeeded(_) => [Success]
                      case Exhausted(_) => [Failure(ended)]
                      case _ => []
    ensures outcome.Succeeded? ==>
              var last := outcome.attempts - 1;
              0 <= last <= Retries(maxRetries) && Undecided(f, last) && f.succeeds(last) && (last > 0 ==> !f.cancelled(last))
    ensures outcome.Exhausted? ==>
              outcome.attempts == Retries(maxRetries) + 1 && Undecided(f, outcome.attempts)
    ensures outcome.Cancelled? ==> exists n: nat :: 0 < n <= Retries(maxRetries) && Undecided(f, n) && f.cancelled(n)
    ensures outcome.Exhausted? ==> outcome.attempts == if maxRetries >= 0 then 1 + maxRetries else 3
  {
    var allowed := cb.Allow(started);
    if !allowed {
      return Rejected;
    }
    for attempt := 0 to Retries(maxRetries) + 1
      invariant cb.Valid() && cb.log == old(cb.log) + [Call(started)]
      invariant Undecided(f, attempt)
    {
      if attempt > 0 && f.cancelled(attempt) {
        return Cancelled;
      }
      if f.succeeds(attempt) {
        cb.RecordSuccess();
        return Succeeded(attempt + 1);
      }
    }
    cb.RecordFailure(ended);
    outcome := Exhausted(Retries(maxRetries) + 1);
  }
}

/** Lease-based leader election on one Redis key as a timed protocol: any number of
    instances acquire, renew and release, and a watcher cancels the leader's context once
    a GET no longer shows the instance's own value. */
module LeaderElection {
  import opened LeaseKey

  // ------------------------------------------------------------ RunIfLeader, timed

  datatype Answer = Pending | Sampled(held: bool)

  /** The watcher goroutine: waiting for a tick, or waiting for the reply to a GET.
      `nextTick` is when the ticker will have its next tick ready. */
  datatype Watch =
    | Ticking(due: int)
    | Asking(since: int, answer: Answer, nextTick: int)

  /** A runner is elected when its SET has run (at `since`) and leading from the reply on. */
  datatype Runner =
    | Idle
    | Elected(since: int)
    | Leading(cancelled: bool, watch: Watch)
    | Finishing
    | Sleeping(until: int)
    | Crashed

  datatype State = State(now: int, key: Key, runners: map<Instance, Runner>)

  /** `getTime` bounds the time from sending the watcher's GET to acting on its reply,
      `setTime` that from running a SET to acting on its reply.  With `interference`, keys may
      be deleted from outside, and a renew script that an instance sent in an earlier
      tenure may arrive while it waits for the reply to a later SET. */
  datatype Config = Config(ttl: int, getTime: nat, setTime: nat, interference: bool)

  datatype Step =
    | Advance(to: int)
    | SetExec(i: Instance)
    | SetFail(i: Instance)
    | SetReply(i: Instance)
    | SetReplyLost(i: Instance)
    | RenewExec(i: Instance)
    | WatchTick(i: Instance, nextTick: int)
    | WatchGet(i: Instance)
    | WatchGetFail(i: Instance)
    | WatchReply(i: Instance)
    | OuterCancel(i: Instance)
    | FnReturn(i: Instance)
    | ReleaseExec(i: Instance)
    | ReleaseFail(i: Instance)
    | Wake(i: Instance)
    | Crash(i: Instance)
    | ForceDelete

  predicate Active(r: Runner) {
    r.Leading? && !r.cancelled
  }

  predicate InTenure(r: Runner) {
    r.Elected? || r.Leading? || r.Finishing?
  }

  /** A due tick is served, and a reply to a GET acted on, before time moves past it. */
  ghost predicate MayAdvance(c: Config, r: Runner, to: int) {
    Active(r) ==>
      match r.watch
      case Ticking(due) => to <= due
      case Asking(since, _, _) => to <= since + c.getTime
  }

  ghost predicate Asked(s: State, i: Instance) {
    i in s.runners && Active(s.runners[i]) && s.runners[i].watch.Asking?
  }

  ghost predicate Enabled(c: Config, s: State, step: Step) {
    match step
    case Advance(to) => s.now <= to && forall i | i in s.runners :: MayAdvance(c, s.runners[i], to)
    case SetExec(i) => i in s.runners && s.runners[i].Idle?
    case SetFail(i) => i in s.runners && s.runners[i].Idle?
    case SetReply(i) => i in s.runners && s.runners[i].Elected? && s.now <= s.runners[i].since + c.setTime
    case SetReplyLost(i) => i in s.runners && s.runners[i].Elected?
    case RenewExec(i) => i in s.runners && (s.runners[i].Elected? ==> c.interference)
    case WatchTick(i, nextTick) =>
      && i in s.runners && Active(s.runners[i]) && s.runners[i].watch.Ticking?
      && s.runners[i].watch.due <= s.now <= nextTick <= s.now + WatchPeriod(c.ttl)
    case WatchGet(i) => Asked(s, i) && s.runners[i].watch.answer.Pending?
    case WatchGetFail(i) => Asked(s, i) && s.runners[i].watch.answer.Pending?
    case WatchReply(i) => Asked(s, i) && s.runners[i].watch.answer.Sampled?
    case OuterCancel(i) => i in s.runners && Active(s.runners[i])
    case FnReturn(i) => i in s.runners && s.runners[i].Leading?
    case ReleaseExec(i) => i in s.runners && s.runners[i].Finishing?
    case ReleaseFail(i) => i in s.runners && s.runners[i].Finishing?
    case Wake(i) => i in s.runners && s.runners[i].Sleeping? && s.runners[i].until <= s.now
    case Crash(i) => i in s.runners
    case ForceDelete => c.interference
  }

  ghost function AfterReply(r: Runner, now: int): Runner
    requires r.Leading? && r.watch.Asking? && r.watch.answer.Sampled?
  {
    if r.watch.answer.held
    then r.(watch := Ticking(Max(now, r.watch.nextTick)))
    else r.(cancelled := true)
  }

  /** What a step does to the key. */
  ghost function KeyAfter(c: Config, s: State, step: Step): Key {
    match step
    case SetExec(i) => SetNX(s.key, s.now, i, SetLife(c.ttl))
    case RenewExec(i) => EvalRenew(s.key, s.now, i, RenewLife(c.ttl))
    case ReleaseExec(i) => EvalRelease(s.key, s.now, i)
    case ForceDelete => Absent
    case _ => s.key
  }

  /** What a step of runner `step.i` does to it. */
  ghost function RunnerAfter(c: Config, s: State, step: Step): Runner
    requires Enabled(c, s, step) && !step.Advance? && !step.ForceDelete?
  {
    var r := s.runners[step.i];
    match step
    case SetExec(_) => if Live(s.key, s.now) then Sleeping(s.now + c.ttl) else Elected(s.now)
    case SetFail(_) => Sleeping(s.now + c.ttl)
    case SetReply(_) => Leading(false, Ticking(s.now + WatchPeriod(c.ttl)))
    case SetReplyLost(_) => Sleeping(s.now + c.ttl)
    case RenewExec(_) => r
    case WatchTick(_, nextTick) => r.(watch := Asking(s.now, Pending, nextTick))
    case WatchGet(i) => r.(watch := r.watch.(answer := Sampled(HeldBy(s.key, s.now, i))))
    case WatchGetFail(_) => r.(watch := r.watch.(answer := Sampled(false)))
    case WatchReply(_) => AfterReply(r, s.now)
    case OuterCancel(_) => r.(cancelled := true)
    case FnReturn(_) => Finishing
    case ReleaseExec(_) => Sleeping(s.now + c.ttl)
    case ReleaseFail(_) => Sleeping(s.now + c.ttl)
    case Wake(_) => Idle
    case Crash(_) => Crashed
  }

  ghost function Apply(c: Config, s: State, step: Step): State
    requires Enabled(c, s, step)
  {
    State(
      if step.Advance? then step.to else s.now,
      KeyAfter(c, s, step),
      if step.Advance? || step.ForceDelete? then s.runners else s.runners[step.i := RunnerAfter(c, s, step)])
  }

  ghost predicate Next(c: Config, s: State, s': State) {
    exists step :: Enabled(c, s, step) && s' == Apply(c, s, step)
  }

  ghost predicate Initial(s: State) {
    s.key.Absent? && forall i | i in s.runners :: s.runners[i].Idle?
  }

  ghost predicate IsRun(c: Config, run: seq<State>) {
    && |run| > 0 && Initial(run[0])
    && forall i, j | 0 <= i && j == i + 1 < |run| :: Next(c, run[i], run[j])
  }

  // ------------------------------------------------ when an instance last held the key

  /** `Until(t)`: held up to the instant `t`, and not since. */
  datatype Held = Never | Until(t: int)

  /** A key held before a step and not after it was held up to its deadline or to the
      instant of the step. */
  ghost function NextHeld(h: Held, s: State, s': State, i: Instance): Held {
    if HeldBy(s'.key, s'.now, i) then Until(s'.now)
    else if HeldBy(s.key, s.now, i) then Until(Min(s'.now, s.key.deadline))
    else h
  }

  ghost function LastHeld(run: seq<State>, n: nat, i: Instance): Held
    requires n < |run|
  {
    if n == 0 then
      if HeldBy(run[0].key, run[0].now, i) then Until(run[0].now) else Never
    else
      NextHeld(LastHeld(run, n - 1, i), run[n - 1], run[n], i)
  }

  ghost predicate HeldIn(run: seq<State>, m: nat, i: Instance)
    requires m < |run|
  {
    HeldBy(run[m].key, run[m].now, i)
  }

  ghost predicate Clocked(run: seq<State>) {
    forall i, j | 0 <= i && j == i + 1 < |run| :: run[i].now <= run[j].now
  }

  lemma RunIsClocked(c: Config, run: seq<State>)
    requires IsRun(c, run)
    ensures Clocked(run)
  {
    forall i, j | 0 <= i && j == i + 1 < |run| ensures run[i].now <= run[j].now {
      assert Next(c, run[i], run[j]);
    }
  }

  /** State `m` is the last one, up to state `n`, in which the instance holds the key; it
      then holds it at least to `t`. */
  ghost predicate LastHold(run: seq<State>, n: nat, i: Instance, m: nat, t: int)
    requires m <= n < |run|
  {
    && HeldIn(run, m, i) && run[m].now <= t <= run[m].key.deadline
    && t <= run[if m < n then m + 1 else n].now
    && forall k: nat | m < k <= n :: !HeldIn(run, k, i)
  }

  lemma {:induction false} LastHoldExists(run: seq<State>, n: nat, i: Instance) returns (m: nat)
    requires Clocked(run) && n < |run| && LastHeld(run, n, i).Until?
    ensures m <= n && LastHold(run, n, i, m, LastHeld(run, n, i).t)
  {
    if HeldIn(run, n, i) {
      m := n;
    } else {
      assert run[n - 1].now <= run[n].now;
      if HeldIn(run, n - 1, i) {
        m := n - 1;
      } else {
        m := LastHoldExists(run, n - 1, i);
      }
    }
  }

  lemma {:induction false} NeverHeld(run: seq<State>, n: nat, i: Instance, m: nat)
    requires m <= n < |run| && LastHeld(run, n, i).Never?
    ensures !HeldIn(run, m, i)
  {
    if m < n {
      NeverHeld(run, n - 1, i, m);
    }
  }

  /** `LastHeld` is read off the run's own states. */
  lemma LastHeldMeaning(c: Config, run: seq<State>, n: nat, i: Instance)
    requires IsRun(c, run) && n < |run|
    ensures LastHeld(run, n, i).Never? ==> forall m: nat | m <= n :: !HeldIn(run, m, i)
    ensures LastHeld(run, n, i).Until? ==> exists m: nat | m <= n :: LastHold(run, n, i, m, LastHeld(run, n, i).t)
  {
    if LastHeld(run, n, i).Until? {
      RunIsClocked(c, run);
      var m := LastHoldExists(run, n, i);
    } else {
      forall m: nat | m <= n ensures !HeldIn(run, m, i) {
        NeverHeld(run, n, i, m);
      }
    }
  }

  // ------------------------------------------------------------------ invariant

  /** The longest a watcher can go between two GETs. */
  function Gap(c: Config): int {
    Max(WatchPeriod(c.ttl), c.getTime)
  }

  /** How long the key may be lost already when the SET reply makes its instance leader. */
  function Late(c: Config): int {
    if c.interference then c.setTime else Max(0, c.setTime - SetLife(c.ttl))
  }

  ghost predicate HeldOk(s: State, i: Instance, h: Held) {
    && (HeldBy(s.key, s.now, i) ==> h == Until(s.now))
    && (h.Until? ==> h.t <= s.now)
  }

  ghost predicate ElectedOk(c: Config, s: State, i: Instance, since: int, h: Held) {
    && h.Until? && since <= h.t
    && (!c.interference ==>
          if HeldBy(s.key, s.now, i) then s.key.deadline == since + SetLife(c.ttl) else since + SetLife(c.ttl) <= h.t)
  }

  ghost predicate WatchOk(c: Config, now: int, watch: Watch, h: Held) {
    && h.Until?
    && match watch
       case Ticking(due) => now <= due <= h.t + Late(c) + Gap(c)
       case Asking(since, answer, nextTick) =>
         && since <= now <= since + c.getTime
         && nextTick <= since + WatchPeriod(c.ttl)
         && since <= h.t + (if answer == Sampled(true) then 0 else Late(c) + Gap(c))
  }

  ghost predicate RunnerOk(c: Config, s: State, i: Instance, r: Runner, h: Held) {
    && HeldOk(s, i, h)
    && (r.Elected? ==> ElectedOk(c, s, i, r.since, h))
    && (Active(r) ==> WatchOk(c, s.now, r.watch, h))
  }

  /** Other instances, and its own steps other than these, leave a held key alone. */
  lemma OthersKeepHeld(c: Config, s: State, step: Step, i: Instance)
    requires Enabled(c, s, step) && HeldBy(s.key, s.now, i)
    requires step != RenewExec(i) && step != ReleaseExec(i) && !step.ForceDelete?
    ensures KeyAfter(c, s, step) == s.key
  {
  }

  lemma NotHeldWithoutSet(c: Config, s: State, step: Step, i: Instance)
    requires Enabled(c, s, step) && !HeldBy(s.key, s.now, i) && step != SetExec(i)
    ensures !HeldBy(Apply(c, s, step).key, Apply(c, s, step).now, i)
  {
  }

  lemma AdvanceKeepsRunner(c: Config, s: State, to: int, i: Instance, h: Held)
    requires c.ttl > 0 && Enabled(c, s, Advance(to)) && i in s.runners && RunnerOk(c, s, i, s.runners[i], h)
    ensures RunnerOk(c, Apply(c, s, Advance(to)), i, s.runners[i], NextHeld(h, s, Apply(c, s, Advance(to)), i))
  {
    assert MayAdvance(c, s.runners[i], to);
  }

  /** A step that leaves runner `i` as it is, with the clock. */
  lemma OthersKeepRunner(c: Config, s: State, step: Step, i: Instance, h: Held)
    requires c.ttl > 0 && Enabled(c, s, step) && i in s.runners && RunnerOk(c, s, i, s.runners[i], h)
    requires !step.Advance? && Apply(c, s, step).runners[i] == s.runners[i]
    ensures RunnerOk(c, Apply(c, s, step), i, s.runners[i], NextHeld(h, s, Apply(c, s, step), i))
  {
    var r := s.runners[i];
    if HeldBy(s.key, s.now, i) {
      if r.Elected? && !c.interference {
        OthersKeepHeld(c, s, step, i);
      }
    } else if r.Elected? || Active(r) {
      NotHeldWithoutSet(c, s, step, i);
    }
  }

  /** Its own steps. */
  lemma OwnStepKeepsRunner(c: Config, s: State, step: Step, h: Held)
    requires c.ttl > 0 && Enabled(c, s, step) && !step.Advance? && !step.ForceDelete?
    requires RunnerOk(c, s, step.i, s.runners[step.i], h)
    ensures RunnerOk(c, Apply(c, s, step), step.i, RunnerAfter(c, s, step), NextHeld(h, s, Apply(c, s, step), step.i))
  {
    if !step.RenewExec? && !step.ReleaseExec? && HeldBy(s.key, s.now, step.i) {
      OthersKeepHeld(c, s, step, step.i);
    } else if !step.SetExec? && !HeldBy(s.key, s.now, step.i) {
      NotHeldWithoutSet(c, s, step, step.i);
    }
  }

  lemma StepKeepsRunner(c: Config, s: State, step: Step, i: Instance, h: Held)
    requires c.ttl > 0 && Enabled(c, s, step) && i in s.runners && RunnerOk(c, s, i, s.runners[i], h)
    ensures var s' := Apply(c, s, step); i in s'.runners && RunnerOk(c, s', i, s'.runners[i], NextHeld(h, s, s', i))
  {
    if step.Advance? {
      AdvanceKeepsRunner(c, s, step.to, i, h);
    } else if step.ForceDelete? || step.i != i {
      OthersKeepRunner(c, s, step, i, h);
    } else {
      OwnStepKeepsRunner(c, s, step, h);
    }
  }

  lemma {:induction false} RunKeepsRunner(c: Config, run: seq<State>, n: nat, i: Instance)
    requires c.ttl > 0 && IsRun(c, run) && n < |run| && i in run[n].runners
    ensures RunnerOk(c, run[n], i, run[n].runners[i], LastHeld(run, n, i))
  {
    if n > 0 {
      assert Next(c, run[n - 1], run[n]);
      var step :| Enabled(c, run[n - 1], step) && run[n] == Apply(c, run[n - 1], step);
      RunKeepsRunner(c, run, n - 1, i);
      StepKeepsRunner(c, run[n - 1], step, i, LastHeld(run, n - 1, i));
    }
  }

  // --------------------------------------------------------------- main results

  /** No live context of a run is older than its instance's last hold of the key plus `bound`. */
  ghost predicate LossWithin(run: seq<State>, n: nat, i: Instance, bound: int)
    requires n < |run|
  {
    LastHeld(run, n, i).Until? && run[n].now - LastHeld(run, n, i).t <= bound
  }

  ghost predicate AlwaysWithin(c: Config, bound: int) {
    forall run: seq<State>, n: nat, i: Instance
      | IsRun(c, run) && n < |run| && i in run[n].runners && Active(run[n].runners[i]) ::
      LossWithin(run, n, i, bound)
  }

  /** The work function's context survives the loss of the key by at most one watch
      gap and one GET, after a key that was lost before the SET reply by as much more. */
  lemma ContextOutlivesLossBounded(c: Config, run: seq<State>, n: nat, i: Instance)
    requires c.ttl > 0 && IsRun(c, run) && n < |run|
    requires i in run[n].runners && Active(run[n].runners[i])
    ensures LossWithin(run, n, i, Late(c) + Gap(c) + c.getTime)
  {
    RunKeepsRunner(c, run, n, i);
  }

  /** Two instances may run the work function at once only in the short time one of
      them needs to notice that it has lost the key. */
  lemma OverlapBounded(c: Config, run: seq<State>, n: nat, i: Instance, j: Instance)
    requires c.ttl > 0 && IsRun(c, run) && n < |run| && i != j
    requires i in run[n].runners && j in run[n].runners
    requires Active(run[n].runners[i]) && Active(run[n].runners[j])
    ensures exists loser | loser in {i, j} ::
      !HeldIn(run, n, loser) && LossWithin(run, n, loser, Late(c) + Gap(c) + c.getTime)
  {
    ContextOutlivesLossBounded(c, run, n, i);
    ContextOutlivesLossBounded(c, run, n, j);
    var loser := if HeldIn(run, n, i) then j else i;
    assert !HeldIn(run, n, loser);
  }

  /** With GETs answered within a watch period, a watch period and a GET bound the time from
      the loss to the cancellation on every run if and only if no reply to a SET comes
      after the lifetime it set (or, with interference, after the SET itself). */
  lemma PeriodAndGetExactly(c: Config)
    requires c.ttl > 0 && c.getTime <= WatchPeriod(c.ttl)
    ensures AlwaysWithin(c, WatchPeriod(c.ttl) + c.getTime) <==>
      if c.interference then c.setTime == 0 else c.setTime <= SetLife(c.ttl)
  {
    if Late(c) == 0 {
      forall run: seq<State>, n: nat, i: Instance
        | IsRun(c, run) && n < |run| && i in run[n].runners && Active(run[n].runners[i])
        ensures LossWithin(run, n, i, WatchPeriod(c.ttl) + c.getTime)
      {
        ContextOutlivesLossBounded(c, run, n, i);
      }
    } else {
      LateReplyRun(c);
    }
  }

  /** Some run ends in `s` with `h` as the last hold of `i`. */
  ghost predicate Reached(c: Config, s: State, i: Instance, h: Held) {
    exists run: seq<State> :: IsRun(c, run) && run[|run| - 1] == s && LastHeld(run, |run| - 1, i) == h
  }

  lemma {:induction false} LastHeldPrefix(run: seq<State>, more: seq<State>, n: nat, i: Instance)
    requires n < |run|
    ensures LastHeld(run + more, n, i) == LastHeld(run, n, i)
  {
    if n > 0 {
      LastHeldPrefix(run, more, n - 1, i);
    }
  }

  lemma Reach(c: Config, s: State, i: Instance, h: Held, step: Step)
    requires Reached(c, s, i, h) && Enabled(c, s, step)
    ensures Reached(c, Apply(c, s, step), i, NextHeld(h, s, Apply(c, s, step), i))
  {
    var s' := Apply(c, s, step);
    assert Next(c, s, s');
    ReachNext(c, s, s', i, h);
  }

  lemma ReachNext(c: Config, s: State, s': State, i: Instance, h: Held)
    requires Reached(c, s, i, h) && Next(c, s, s')
    ensures Reached(c, s', i, NextHeld(h, s, s', i))
  {
    var run: seq<State> :| IsRun(c, run) && run[|run| - 1] == s && LastHeld(run, |run| - 1, i) == h;
    var longer := run + [s'];
    LastHeldPrefix(run, [s'], |run| - 1, i);
    assert LastHeld(longer, |longer| - 1, i) == NextHeld(h, s, s', i);
  }

  /** An only instance is elected and loses the key before the latest reply to its SET. */
  lemma LosesBeforeReply(c: Config, i: Instance) returns (s: State, h: int)
    requires Late(c) > 0
    ensures Reached(c, s, i, Until(h)) && s.runners == map[i := Elected(0)]
    ensures s.now == c.setTime == h + Late(c) && !HeldBy(s.key, s.now, i)
  {
    var s0 := State(0, Absent, map[i := Idle]);
    assert IsRun(c, [s0]) && LastHeld([s0], 0, i) == Never;
    Reach(c, s0, i, Never, SetExec(i));
    s := State(0, Owned(i, SetLife(c.ttl)), map[i := Elected(0)]);
    assert s == Apply(c, s0, SetExec(i));
    h := SetLife(c.ttl);
    if c.interference {
      Reach(c, s, i, Until(0), ForceDelete);
      s, h := s.(key := Absent), 0;
    }
    Reach(c, s, i, Until(0), Advance(c.setTime));
    s := s.(now := c.setTime);
  }

  /** Made leader too late, it takes the longest it can to notice. */
  lemma NoticesLate(c: Config, s: State, i: Instance, h: Held) returns (s': State)
    requires c.ttl > 0 && Reached(c, s, i, h) && s.runners.Keys == {i} && !HeldBy(s.key, s.now, i)
    requires s.runners[i].Elected? && s.now <= s.runners[i].since + c.setTime
    ensures Reached(c, s', i, h) && s'.now == s.now + WatchPeriod(c.ttl) + c.getTime
    ensures i in s'.runners && Active(s'.runners[i])
  {
    Reach(c, s, i, h, SetReply(i));
    s' := Apply(c, s, SetReply(i));
    var tick := s.now + WatchPeriod(c.ttl);
    Reach(c, s', i, h, Advance(tick));
    s' := s'.(now := tick);
    Reach(c, s', i, h, WatchTick(i, tick));
    s' := Apply(c, s', WatchTick(i, tick));
    Reach(c, s', i, h, Advance(tick + c.getTime));
    s' := s'.(now := tick + c.getTime);
  }

  lemma LateReplyRun(c: Config)
    requires c.ttl > 0 && Late(c) > 0
    ensures !AlwaysWithin(c, WatchPeriod(c.ttl) + c.getTime)
  {
    var s, h := LosesBeforeReply(c, "");
    var s' := NoticesLate(c, s, "", Until(h));
    var run: seq<State> :| IsRun(c, run) && run[|run| - 1] == s' && LastHeld(run, |run| - 1, "") == Until(h);
    assert !LossWithin(run, |run| - 1, "", WatchPeriod(c.ttl) + c.getTime);
  }

  lemma LossStays(c: Config, s: State, s': State, i: Instance)
    requires Next(c, s, s') && i in s.runners && InTenure(s.runners[i]) && !HeldBy(s.key, s.now, i)
    ensures !HeldBy(s'.key, s'.now, i)
  {
    var step :| Enabled(c, s, step) && s' == Apply(c, s, step);
    NotHeldWithoutSet(c, s, step, i);
  }

  ghost predicate TenureAt(run: seq<State>, k: nat, i: Instance)
    requires k < |run|
  {
    i in run[k].runners && InTenure(run[k].runners[i])
  }

  /** Once an instance has lost the key within a tenure it does not get it back before
      that tenure is over. */
  lemma {:induction false} LossIsFinalWithinTenure(c: Config, run: seq<State>, m: nat, n: nat, i: Instance)
    requires IsRun(c, run) && m <= n < |run|
    requires forall k: nat | m <= k <= n :: TenureAt(run, k, i)
    requires !HeldIn(run, m, i)
    ensures !HeldIn(run, n, i) && LastHeld(run, n, i) == LastHeld(run, m, i)
    decreases n
  {
    if m < n {
      assert TenureAt(run, n - 1, i);
      LossIsFinalWithinTenure(c, run, m, n - 1, i);
      LossStays(c, run[n - 1], run[n], i);
    }
  }

  /** A live key changes hands only through its owner's own renewal or release, or a
      forced delete: no step of another instance touches it. */
  lemma OthersNeverTouchLiveKey(c: Config, s: State, step: Step)
    requires Enabled(c, s, step) && Live(s.key, s.now)
    requires Apply(c, s, step).key != s.key
    ensures step == RenewExec(s.key.owner) || step == ReleaseExec(s.key.owner) || step.ForceDelete?
  {
  }

  /** The key passes from one instance to another only through a moment at which no
      instance holds it. */
  lemma {:induction false} HandOverNeedsLapse(c: Config, run: seq<State>, m: nat, n: nat)
    requires IsRun(c, run) && m <= n < |run|
    requires Live(run[m].key, run[m].now) && Live(run[n].key, run[n].now)
    requires run[m].key.owner != run[n].key.owner
    ensures exists k | m < k < n :: !Live(run[k].key, run[k].now)
    decreases n
  {
    assert m < n;
    var k := n - 1;
    assert Next(c, run[k], run[n]);
    if Live(run[k].key, run[k].now) {
      assert run[k].key.owner == run[n].key.owner;
      HandOverNeedsLapse(c, run, m, k);
    } else {
      assert m < k;
    }
  }

  // --------------------------------------------------- what ends a leader's context

  /** A run together with the steps it took. */
  ghost predicate IsTrace(c: Config, run: seq<State>, steps: seq<Step>) {
    && |run| == |steps| + 1 && Initial(run[0])
    && forall k | 0 <= k < |steps| :: Took(c, run[k], steps[k], run[k + 1])
  }

  ghost predicate Took(c: Config, s: State, step: Step, s': State) {
    Enabled(c, s, step) && s' == Apply(c, s, step)
  }

  /** Every run is the run of a trace. */
  lemma {:induction false} RunHasTrace(c: Config, run: seq<State>) returns (steps: seq<Step>)
    requires IsRun(c, run)
    ensures IsTrace(c, run, steps)
  {
    var n := |run| - 1;
    if n == 0 {
      steps := [];
    } else {
      var before := RunHasTrace(c, run[..n]);
      assert Next(c, run[n - 1], run[n]);
      var step :| Enabled(c, run[n - 1], step) && run[n] == Apply(c, run[n - 1], step);
      steps := before + [step];
      assert Took(c, run[n - 1], step, run[n]);
      forall k | 0 <= k < |steps| ensures Took(c, run[k], steps[k], run[k + 1]) {
        if k < n - 1 {
          assert Took(c, run[..n][k], before[k], run[..n][k + 1]);
        }
      }
    }
  }

  ghost predicate ActiveIn(run: seq<State>, k: nat, i: Instance)
    requires k < |run|
  {
    i in run[k].runners && Active(run[k].runners[i])
  }

  /** A GET of the watcher: it fails, or it reads the key as it is. */
  predicate Reads(step: Step, i: Instance) {
    step == WatchGet(i) || step == WatchGetFail(i)
  }

  /** Step `m` is the last GET of the instance before state `n`. */
  ghost predicate LastRead(steps: seq<Step>, m: nat, n: nat, i: Instance)
    requires n <= |steps|
  {
    m < n && Reads(steps[m], i) && forall k | m < k < n :: !Reads(steps[k], i)
  }

  ghost predicate ReadOwnKey(run: seq<State>, steps: seq<Step>, m: nat, i: Instance)
    requires m < |steps| < |run|
  {
    steps[m] == WatchGet(i) && HeldIn(run, m, i)
  }

  /** What an answer that has not been acted on yet stands for. */
  ghost predicate AnswerIsRead(run: seq<State>, steps: seq<Step>, n: nat, i: Instance)
    requires n <= |steps| < |run|
  {
    ActiveIn(run, n, i) && run[n].runners[i].watch.Asking? && run[n].runners[i].watch.answer.Sampled? ==>
      exists m: nat :: LastRead(steps, m, n, i) && (run[n].runners[i].watch.answer.held <==> ReadOwnKey(run, steps, m, i))
  }

  lemma OthersKeepPhase(c: Config, s: State, step: Step, s': State, i: Instance)
    requires Took(c, s, step, s') && i in s.runners
    requires step.Advance? || step.ForceDelete? || step.i != i || step.RenewExec?
    ensures i in s'.runners && s'.runners[i] == s.runners[i]
  {
  }

  lemma ReadKept(steps: seq<Step>, m: nat, n: nat, i: Instance)
    requires n < |steps| && LastRead(steps, m, n, i) && !Reads(steps[n], i)
    ensures LastRead(steps, m, n + 1, i)
  {
  }

  lemma {:induction false} AnswersAreReads(c: Config, run: seq<State>, steps: seq<Step>, n: nat, i: Instance)
    requires IsTrace(c, run, steps) && n <= |steps|
    ensures AnswerIsRead(run, steps, n, i)
  {
    if n > 0 && ActiveIn(run, n, i) && run[n].runners[i].watch.Asking? && run[n].runners[i].watch.answer.Sampled? {
      var step := steps[n - 1];
      AnswersAreReads(c, run, steps, n - 1, i);
      assert Took(c, run[n - 1], step, run[n]);
      if Reads(step, i) {
        assert LastRead(steps, n - 1, n, i);
      } else {
        KeptAnswer(c, run[n - 1], step, run[n], i);
        var m: nat :| LastRead(steps, m, n - 1, i)
          && (run[n - 1].runners[i].watch.answer.held <==> ReadOwnKey(run, steps, m, i));
        ReadKept(steps, m, n - 1, i);
      }
    } else if n == 0 {
      assert !ActiveIn(run, 0, i);
    }
  }

  lemma KeptAnswer(c: Config, s: State, step: Step, s': State, i: Instance)
    requires Took(c, s, step, s') && !Reads(step, i)
    requires i in s'.runners && Active(s'.runners[i]) && s'.runners[i].watch.Asking? && s'.runners[i].watch.answer.Sampled?
    ensures i in s.runners && s.runners[i] == s'.runners[i]
  {
  }

  /** Someone ends the work, or the process dies. */
  predicate Stops(step: Step, i: Instance) {
    step == OuterCancel(i) || step == FnReturn(i) || step == Crash(i)
  }

  lemma EndsOnly(c: Config, s: State, step: Step, s': State, i: Instance)
    requires Took(c, s, step, s') && i in s.runners && Active(s.runners[i])
    ensures i in s'.runners
    ensures !Active(s'.runners[i]) <==>
      Stops(step, i) || (step == WatchReply(i) && !s.runners[i].watch.answer.held)
  {
  }

  /** In every run a leader's context ends exactly when its work is stopped, or at the reply to a GET
      that failed or found the key not its own. */
  lemma ContextEndsExactly(c: Config, run: seq<State>, steps: seq<Step>, n: nat, i: Instance)
    requires IsTrace(c, run, steps) && n < |steps| && ActiveIn(run, n, i)
    ensures !ActiveIn(run, n + 1, i) <==>
      || Stops(steps[n], i)
      || (steps[n] == WatchReply(i) && exists m: nat :: LastRead(steps, m, n, i) && !ReadOwnKey(run, steps, m, i))
  {
    assert Took(c, run[n], steps[n], run[n + 1]);
    EndsOnly(c, run[n], steps[n], run[n + 1], i);
    AnswersAreReads(c, run, steps, n, i);
    if steps[n] == WatchReply(i) {
      var m: nat :| LastRead(steps, m, n, i) && (run[n].runners[i].watch.answer.held <==> ReadOwnKey(run, steps, m, i));
      assert forall k: nat | LastRead(steps, k, n, i) :: k == m;
    }
  }

  ghost predicate Undisturbed(run: seq<State>, steps: seq<Step>, k: nat, i: Instance)
    requires k < |steps| < |run|
  {
    HeldIn(run, k, i) && !Stops(steps[k], i) && steps[k] != WatchGetFail(i)
  }

  /** From the reply to its SET on, an instance that keeps holding the key, whose GETs do not fail and
      whose work nobody stops, stays leader. */
  lemma {:induction false} HolderStaysLeader(c: Config, run: seq<State>, steps: seq<Step>, start: nat, n: nat, i: Instance)
    requires IsTrace(c, run, steps) && start < n <= |steps| && steps[start] == SetReply(i)
    requires forall k: nat | start < k < n :: Undisturbed(run, steps, k, i)
    ensures ActiveIn(run, n, i)
    decreases n
  {
    assert Took(c, run[n - 1], steps[n - 1], run[n]);
    if n > start + 1 {
      HolderStaysLeader(c, run, steps, start, n - 1, i);
      ContextEndsExactly(c, run, steps, n - 1, i);
      assert Undisturbed(run, steps, n - 1, i);
      if steps[n - 1] == WatchReply(i) {
        forall m: nat | LastRead(steps, m, n - 1, i) ensures ReadOwnKey(run, steps, m, i) {
          ReadAfterStart(c, run, steps, start, n - 1, m, i);
          assert Undisturbed(run, steps, m, i);
        }
      }
    }
  }

  /** A reply is acted on within the tenure it was asked in. */
  lemma ReadAfterStart(c: Config, run: seq<State>, steps: seq<Step>, start: nat, n: nat, m: nat, i: Instance)
    requires IsTrace(c, run, steps) && start < n < |steps| && steps[start] == SetReply(i)
    requires steps[n] == WatchReply(i) && LastRead(steps, m, n, i)
    requires forall k: nat | start < k < n :: Undisturbed(run, steps, k, i)
    ensures m > start
  {
    assert Took(c, run[n], steps[n], run[n + 1]);
    assert Took(c, run[start], steps[start], run[start + 1]);
    if m <= start {
      NoReadNoAnswer(c, run, steps, start, n, i);
    }
  }

  lemma {:induction false} NoReadNoAnswer(c: Config, run: seq<State>, steps: seq<Step>, start: nat, n: nat, i: Instance)
    requires IsTrace(c, run, steps) && start < n <= |steps| && steps[start] == SetReply(i)
    requires forall k: nat | start < k < n :: !Reads(steps[k], i)
    ensures i in run[n].runners
    ensures Active(run[n].runners[i]) ==> run[n].runners[i].watch.Ticking? || run[n].runners[i].watch.answer.Pending?
    decreases n
  {
    assert Took(c, run[n - 1], steps[n - 1], run[n]);
    if n > start + 1 {
      NoReadNoAnswer(c, run, steps, start, n - 1, i);
      assert !Reads(steps[n - 1], i);
    }
  }

  /** Every GET, failed or not, is answered: the reply can be acted on next. */
  lemma ReadIsAnswered(c: Config, s: State, step: Step, s': State, i: Instance)
    requires Took(c, s, step, s') && Reads(step, i)
    ensures Enabled(c, s', WatchReply(i))
  {
  }

  // ------------------------------------------------------------ how often a SET is sent

  predicate Tries(step: Step, i: Instance) {
    step == SetExec(i) || step == SetFail(i)
  }

  /** The instance will not be idle before `until`. */
  ghost predicate Rests(s: State, i: Instance, until: int) {
    i in s.runners
    && match s.runners[i]
       case Idle => s.now >= until
       case Sleeping(wake) => wake >= until
       case _ => true
  }

  lemma StepRests(c: Config, s: State, step: Step, s': State, i: Instance, until: int)
    requires c.ttl > 0 && Took(c, s, step, s') && Rests(s, i, until) && until <= s.now + c.ttl
    ensures Rests(s', i, until)
  {
  }

  lemma TryRests(c: Config, s: State, step: Step, s': State, i: Instance)
    requires c.ttl > 0 && Took(c, s, step, s') && Tries(step, i)
    ensures Rests(s', i, s.now + c.ttl) && s.now == s'.now
  {
  }

  lemma {:induction false} RestsAfterTry(c: Config, run: seq<State>, steps: seq<Step>, m: nat, n: nat, i: Instance)
    requires c.ttl > 0 && IsTrace(c, run, steps) && m < n <= |steps| && Tries(steps[m], i)
    ensures Rests(run[n], i, run[m].now + c.ttl) && run[m].now <= run[n].now
    decreases n
  {
    assert Took(c, run[n - 1], steps[n - 1], run[n]);
    if n == m + 1 {
      TryRests(c, run[m], steps[m], run[n], i);
    } else {
      RestsAfterTry(c, run, steps, m, n - 1, i);
      StepRests(c, run[n - 1], steps[n - 1], run[n], i, run[m].now + c.ttl);
    }
  }

  /** An instance sends its SETs at least a ttl apart, whether they succeed, fail or come too late. */
  lemma TriesApart(c: Config, run: seq<State>, steps: seq<Step>, m: nat, n: nat, i: Instance)
    requires c.ttl > 0 && IsTrace(c, run, steps) && m < n < |steps| && Tries(steps[m], i) && Tries(steps[n], i)
    ensures run[n].now - run[m].now >= c.ttl
  {
    RestsAfterTry(c, run, steps, m, n, i);
    assert Took(c, run[n], steps[n], run[n + 1]);
  }
}

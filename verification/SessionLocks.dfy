/** The table of per-session mutexes of `ChatApp`: entries are created on first use,
    counted, locked, and deleted again by the last user.  Every critical section of
    the two Go functions is one atomic step, so a run is an arbitrary interleaving of
    the steps of any number of threads. */
module SessionLocks {

  type Id = string
  type Tid = nat
  type Addr = nat

  /** Nanoseconds: ten minutes. */
  const SESSION_LOCK_TTL := 600_000_000_000

  datatype Holder = Free | HeldBy(t: Tid)

  /** `holder` is the entry's mutex: locked when it is held. */
  datatype Entry = Entry(refCount: int, holder: Holder, lastUsed: int)

  /** Where a thread stands.  A thread that is not in the thread map is outside. */
  datatype Phase =
    | Waiting(id: Id, entry: Addr)  // counted, about to lock the entry's mutex
    | Inside(id: Id, entry: Addr)   // holds the entry's mutex
    | Leaving(id: Id, entry: Addr)  // has unlocked the mutex, is still counted

  /** `pool` holds every entry ever allocated; an address is an index into it. */
  datatype State = State(table: map<Id, Addr>, pool: seq<Entry>, threads: map<Tid, Phase>)

  datatype Step =
    | Lookup(t: Tid, id: Id, now: int)
    | Lock(t: Tid)
    | Unlock(t: Tid)
    | Decrement(t: Tid, now: int)
    | Cleanup(now: int)

  const INIT := State(map[], [], map[])

  ghost predicate WellFormed(s: State) {
    && (forall id | id in s.table :: s.table[id] < |s.pool|)
    && (forall t | t in s.threads :: s.threads[t].entry < |s.pool|)
  }

  ghost predicate Enabled(s: State, step: Step)
    requires WellFormed(s)
  {
    match step
    case Lookup(t, _, _) => t !in s.threads
    case Lock(t) => t in s.threads && s.threads[t].Waiting? && s.pool[s.threads[t].entry].holder.Free?
    case Unlock(t) => t in s.threads && s.threads[t].Inside?
    case Decrement(t, _) => t in s.threads && s.threads[t].Leaving?
    case Cleanup(_) => true
  }

  /** Idle entries that have outlived the TTL. */
  ghost predicate Stale(e: Entry, now: int) {
    e.refCount == 0 && now - e.lastUsed > SESSION_LOCK_TTL
  }

  /** A fresh entry is allocated and filed when the id has none. */
  ghost function WithEntry(s: State, id: Id): (s': State)
    requires WellFormed(s)
    ensures WellFormed(s') && id in s'.table
  {
    if id in s.table then s else s.(table := s.table[id := |s.pool|], pool := s.pool + [Entry(0, Free, 0)])
  }

  ghost function CountUser(s: State, t: Tid, id: Id, now: int): State
    requires WellFormed(s) && id in s.table
  {
    var a := s.table[id];
    s.(pool := s.pool[a := s.pool[a].(refCount := s.pool[a].refCount + 1, lastUsed := now)],
       threads := s.threads[t := Waiting(id, a)])
  }

  ghost function Lowered(s: State, a: Addr, now: int): State
    requires a < |s.pool|
  {
    var count := if s.pool[a].refCount > 0 then s.pool[a].refCount - 1 else s.pool[a].refCount;
    s.(pool := s.pool[a := s.pool[a].(refCount := count, lastUsed := now)])
  }

  ghost function WithoutUnused(s: State, id: Id): State
    requires id in s.table && s.table[id] < |s.pool|
  {
    if s.pool[s.table[id]].refCount == 0 then s.(table := s.table - {id}) else s
  }

  ghost function Apply(s: State, step: Step): State
    requires WellFormed(s) && Enabled(s, step)
  {
    match step
    case Lookup(t, id, now) =>
      CountUser(WithEntry(s, id), t, id, now)
    case Lock(t) =>
      var Waiting(id, a) := s.threads[t];
      s.(pool := s.pool[a := s.pool[a].(holder := HeldBy(t))], threads := s.threads[t := Inside(id, a)])
    case Unlock(t) =>
      var Inside(id, a) := s.threads[t];
      s.(pool := s.pool[a := s.pool[a].(holder := Free)], threads := s.threads[t := Leaving(id, a)])
    case Decrement(t, now) =>
      var Leaving(id, a) := s.threads[t];
      var threads := s.threads - {t};
      if id !in s.table || s.table[id] != a then
        s.(threads := threads)
      else
        WithoutUnused(Lowered(s, a, now), id).(threads := threads)
    case Cleanup(now) =>
      s.(table := map id | id in s.table && !Stale(s.pool[s.table[id]], now) :: s.table[id])
  }

  ghost predicate Next(s: State, s': State) {
    WellFormed(s) && exists step :: Enabled(s, step) && s' == Apply(s, step)
  }

  /** A finite run: any interleaving of steps from the empty table. */
  ghost predicate IsRun(run: seq<State>) {
    && |run| > 0
    && run[0] == INIT
    && forall i, j | 0 <= i && j == i + 1 < |run| :: Next(run[i], run[j])
  }

  // ---------------------------------------------------------------- invariant

  ghost function Users(threads: map<Tid, Phase>, a: Addr): set<Tid> {
    set t | t in threads && threads[t].entry == a
  }

  /** Entries are filed under the id their users asked for, and nowhere else. */
  ghost predicate Filed(s: State) {
    && (forall t | t in s.threads :: s.threads[t].id in s.table && s.table[s.threads[t].id] == s.threads[t].entry)
    && (forall i, j | i in s.table && j in s.table && s.table[i] == s.table[j] :: i == j)
  }

  /** An entry in the table is counted once per thread between lookup and decrement. */
  ghost predicate Counted(s: State)
    requires WellFormed(s)
  {
    forall id {:trigger Users(s.threads, s.table[id])} | id in s.table ::
      s.pool[s.table[id]].refCount == |Users(s.threads, s.table[id])| && s.pool[s.table[id]].refCount > 0
  }

  ghost predicate Held(s: State, a: Addr) {
    a < |s.pool| && s.pool[a].holder.HeldBy?
  }

  ghost predicate Holds(s: State, t: Tid, a: Addr) {
    t in s.threads && s.threads[t].Inside? && s.threads[t].entry == a
  }

  /** A mutex is held exactly by the thread inside its critical section. */
  ghost predicate Exclusive(s: State)
    requires WellFormed(s)
  {
    && (forall t: Tid, a: Addr {:trigger Holds(s, t, a)} | Holds(s, t, a) :: s.pool[a].holder == HeldBy(t))
    && (forall a: Addr {:trigger Held(s, a)} | Held(s, a) :: Holds(s, s.pool[a].holder.t, a))
  }

  ghost predicate Inv(s: State) {
    WellFormed(s) && Filed(s) && Counted(s) && Exclusive(s)
  }

  lemma ExclusiveKept(s: State, step: Step)
    requires WellFormed(s) && Exclusive(s) && Enabled(s, step)
    ensures var s' := Apply(s, step); WellFormed(s') && Exclusive(s')
  {
    var s' := Apply(s, step);
    forall t: Tid, a: Addr | Holds(s', t, a) ensures s'.pool[a].holder == HeldBy(t) {
      assert Holds(s, t, a) || step == Lock(t);
      assert step.Lock? || step.Unlock? ==> Holds(s, step.t, s.threads[step.t].entry) == step.Unlock?;
    }
    forall a: Addr | Held(s', a) ensures Holds(s', s'.pool[a].holder.t, a) {
      assert Held(s, a) || (step.Lock? && a == s.threads[step.t].entry);
      assert Held(s, a) ==> Holds(s, s.pool[a].holder.t, a);
    }
  }

  lemma LookupKeepsFiling(s: State, t: Tid, id: Id, now: int)
    requires WellFormed(s) && Filed(s) && Enabled(s, Lookup(t, id, now))
    ensures var s' := Apply(s, Lookup(t, id, now)); WellFormed(s') && Filed(s')
  {
  }

  /** A new thread is one more user of the entry it is handed. */
  lemma NewUser(threads: map<Tid, Phase>, t: Tid, p: Phase, b: Addr)
    requires t !in threads
    ensures |Users(threads[t := p], b)| == |Users(threads, b)| + (if b == p.entry then 1 else 0)
  {
    if b == p.entry {
      assert Users(threads[t := p], b) == Users(threads, b) + {t};
    } else {
      assert Users(threads[t := p], b) == Users(threads, b);
    }
  }

  lemma LookupKeepsCounts(s: State, t: Tid, id: Id, now: int)
    requires WellFormed(s) && Filed(s) && Counted(s) && Enabled(s, Lookup(t, id, now))
    ensures var s' := Apply(s, Lookup(t, id, now)); WellFormed(s') && Counted(s')
  {
    LookupKeepsFiling(s, t, id, now);
    var s' := Apply(s, Lookup(t, id, now));
    forall i | i in s'.table
      ensures s'.pool[s'.table[i]].refCount == |Users(s'.threads, s'.table[i])| && s'.pool[s'.table[i]].refCount > 0
    {
      NewUser(s.threads, t, Waiting(id, s'.table[id]), s'.table[i]);
      if i in s.table {
        assert s.table[i] == s'.table[i];
        assert i != id ==> s'.table[i] != s'.table[id];
      } else {
        assert Users(s.threads, s'.table[i]) == {};
      }
    }
  }

  /** The mutex steps touch neither table, nor counts, nor what a thread asked for. */
  ghost predicate SameBooks(s: State, s': State) {
    && s'.table == s.table && |s'.pool| == |s.pool| && s'.threads.Keys == s.threads.Keys
    && (forall t | t in s.threads :: s'.threads[t].id == s.threads[t].id && s'.threads[t].entry == s.threads[t].entry)
    && (forall a | 0 <= a < |s.pool| :: s'.pool[a].refCount == s.pool[a].refCount)
  }

  lemma SameBooksKeepFiling(s: State, s': State)
    requires WellFormed(s) && Filed(s) && SameBooks(s, s')
    ensures WellFormed(s') && Filed(s')
  {
  }

  lemma SameBooksKeepCounts(s: State, s': State)
    requires WellFormed(s) && WellFormed(s') && Counted(s) && SameBooks(s, s')
    ensures Counted(s')
  {
    forall id | id in s'.table
      ensures s'.pool[s'.table[id]].refCount == |Users(s'.threads, s'.table[id])| && s'.pool[s'.table[id]].refCount > 0
    {
      assert Users(s'.threads, s'.table[id]) == Users(s.threads, s.table[id]);
    }
  }

  lemma MutexStepsKeepBooks(s: State, step: Step)
    requires WellFormed(s) && Enabled(s, step) && (step.Lock? || step.Unlock?)
    ensures SameBooks(s, Apply(s, step))
  {
  }

  lemma MutexStepsKeepInv(s: State, step: Step)
    requires Inv(s) && Enabled(s, step) && (step.Lock? || step.Unlock?)
    ensures Inv(Apply(s, step))
  {
    MutexStepsKeepBooks(s, step);
    SameBooksKeepFiling(s, Apply(s, step));
    SameBooksKeepCounts(s, Apply(s, step));
    ExclusiveKept(s, step);
  }

  lemma DecrementKeepsInv(s: State, t: Tid, now: int)
    requires Inv(s) && Enabled(s, Decrement(t, now))
    ensures Inv(Apply(s, Decrement(t, now)))
  {
    var s' := Apply(s, Decrement(t, now));
    var Leaving(id, a) := s.threads[t];
    assert Users(s'.threads, a) == Users(s.threads, a) - {t};
    assert t in Users(s.threads, a);
    ExclusiveKept(s, Decrement(t, now));
    assert WellFormed(s');
    assert Filed(s') by {
      if s.pool[a].refCount == 1 {
        assert |Users(s'.threads, a)| == 0;
        forall u | u in s'.threads ensures s'.threads[u].id != id {
          assert u !in Users(s'.threads, a);
        }
      }
    }
    assert Counted(s') by {
      forall i | i in s'.table
        ensures s'.pool[s'.table[i]].refCount == |Users(s'.threads, s'.table[i])| && s'.pool[s'.table[i]].refCount > 0
      {
        if i != id {
          assert Users(s'.threads, s'.table[i]) == Users(s.threads, s'.table[i]);
        }
      }
    }
  }

  /** The periodic sweep finds nothing to delete, whatever the clock says. */
  lemma CleanupIsIdentity(s: State, now: int)
    requires Inv(s)
    ensures Apply(s, Cleanup(now)) == s
  {
    forall id | id in s.table ensures !Stale(s.pool[s.table[id]], now) {
      assert |Users(s.threads, s.table[id])| >= 0;
    }
    assert Apply(s, Cleanup(now)).table == s.table;
  }

  lemma NextKeepsInv(s: State, s': State)
    requires Inv(s) && Next(s, s')
    ensures Inv(s')
  {
    var step :| Enabled(s, step) && s' == Apply(s, step);
    match step
    case Lookup(t, id, now) => LookupKeepsCounts(s, t, id, now); LookupKeepsFiling(s, t, id, now); ExclusiveKept(s, step);
    case Lock(_) => MutexStepsKeepInv(s, step);
    case Unlock(_) => MutexStepsKeepInv(s, step);
    case Decrement(t, now) => DecrementKeepsInv(s, t, now);
    case Cleanup(now) => CleanupIsIdentity(s, now);
  }

  lemma {:induction false} RunKeepsInv(run: seq<State>, i: nat)
    requires IsRun(run) && i < |run|
    ensures Inv(run[i])
  {
    if i > 0 {
      RunKeepsInv(run, i - 1);
      assert Next(run[i - 1], run[i]);
      NextKeepsInv(run[i - 1], run[i]);
    }
  }

  // ------------------------------------------------------------- main results

  /** Mutual exclusion per session id, in every state of every interleaving, although
      entries are deleted and created afresh in between. */
  lemma MutualExclusion(run: seq<State>, i: nat, t: Tid, u: Tid)
    requires IsRun(run) && i < |run|
    requires t in run[i].threads && u in run[i].threads
    requires run[i].threads[t].Inside? && run[i].threads[u].Inside?
    requires run[i].threads[t].id == run[i].threads[u].id
    ensures t == u
  {
    RunKeepsInv(run, i);
    assert Holds(run[i], t, run[i].threads[t].entry);
    assert Holds(run[i], u, run[i].threads[u].entry);
  }

  /** A thread waits for its mutex only behind a thread inside the same session:
      distinct sessions never block each other. */
  lemma BlockedOnlyBySameSession(run: seq<State>, i: nat, t: Tid) returns (holder: Tid)
    requires IsRun(run) && i < |run|
    requires t in run[i].threads && run[i].threads[t].Waiting?
    requires WellFormed(run[i]) && !Enabled(run[i], Lock(t))
    ensures holder in run[i].threads && run[i].threads[holder].Inside?
    ensures run[i].threads[holder].id == run[i].threads[t].id
    ensures holder != t
  {
    RunKeepsInv(run, i);
    assert Held(run[i], run[i].threads[t].entry);
    holder := run[i].pool[run[i].threads[t].entry].holder.t;
    assert Holds(run[i], holder, run[i].threads[t].entry);
  }

  /** A releasing thread always finds its own entry, with a positive count: the early
      return for a missing or replaced entry and the guard on the count never act. */
  lemma ReplacedEntryExitUnreachable(run: seq<State>, i: nat, t: Tid)
    requires IsRun(run) && i < |run|
    requires t in run[i].threads
    ensures var p := run[i].threads[t];
      p.id in run[i].table && run[i].table[p.id] == p.entry
      && p.entry < |run[i].pool| && run[i].pool[p.entry].refCount > 0
  {
    RunKeepsInv(run, i);
    assert t in Users(run[i].threads, run[i].table[run[i].threads[t].id]);
  }

  lemma RefCountIsUsers(run: seq<State>, i: nat, id: Id)
    requires IsRun(run) && i < |run| && id in run[i].table
    ensures run[i].table[id] < |run[i].pool|
    ensures run[i].pool[run[i].table[id]].refCount
         == |set t | t in run[i].threads && run[i].threads[t].id == id|
  {
    RunKeepsInv(run, i);
    var s := run[i];
    assert Users(s.threads, s.table[id]) == set t | t in s.threads && s.threads[t].id == id;
  }

  lemma CleanupNeverDeletes(run: seq<State>, i: nat, now: int)
    requires IsRun(run) && i < |run|
    ensures WellFormed(run[i]) && Apply(run[i], Cleanup(now)) == run[i]
  {
    RunKeepsInv(run, i);
    CleanupIsIdentity(run[i], now);
  }

  /** The table holds exactly the ids in use; it is empty once every thread is done. */
  lemma TableIsIdsInUse(run: seq<State>, i: nat)
    requires IsRun(run) && i < |run|
    ensures run[i].table.Keys == set t | t in run[i].threads :: run[i].threads[t].id
    ensures run[i].threads == map[] ==> run[i].table == map[]
  {
    RunKeepsInv(run, i);
    var s := run[i];
    forall id | id in s.table
      ensures exists t :: t in s.threads && s.threads[t].id == id
    {
      assert Users(s.threads, s.table[id]) != {};
      var t :| t in Users(s.threads, s.table[id]);
      assert s.threads[t].id == id;
    }
  }

  // --------------------------------------------------- freedom from deadlock

  ghost predicate Path(s: State, run: seq<State>, s': State) {
    && |run| > 0 && run[0] == s && run[|run| - 1] == s'
    && forall i, j | 0 <= i && j == i + 1 < |run| :: Next(run[i], run[j])
  }

  lemma TakeStep(s: State, step: Step) returns (s': State)
    requires Inv(s) && Enabled(s, step)
    ensures s' == Apply(s, step) && Next(s, s') && Inv(s')
  {
    s' := Apply(s, step);
    NextKeepsInv(s, s');
  }

  lemma JoinPaths(p: seq<State>, q: seq<State>)
    requires |p| > 0 && |q| > 0
    requires Path(p[0], p, p[|p| - 1]) && Path(q[0], q, q[|q| - 1]) && Next(p[|p| - 1], q[0])
    ensures Path(p[0], p + q, q[|q| - 1])
  {
    forall i, j | 0 <= i && j == i + 1 < |p + q| ensures Next((p + q)[i], (p + q)[j]) {
      if j < |p| {
        assert Next(p[i], p[j]);
      } else if i >= |p| {
        assert Next(q[i - |p|], q[j - |p|]);
      }
    }
  }

  /** From every reachable state, the threads already inside the protocol can all
      finish, without any new arrival, and leave an empty table behind. */
  lemma {:induction false} CanDrain(s: State) returns (run: seq<State>)
    requires Inv(s)
    ensures |run| > 0 && Path(s, run, run[|run| - 1])
    ensures run[|run| - 1].threads == map[] && run[|run| - 1].table == map[]
    decreases |s.threads|
  {
    if s.threads == map[] {
      run := [s];
      NoThreadsNoEntries(s);
    } else {
      var t := SomeThreadReady(s);
      var path1, s2 := FinishThread(s, t);
      assert |s2.threads.Keys| < |s.threads.Keys|;
      var rest := CanDrain(s2);
      run := path1 + rest[1..];
      JoinAt(path1, rest);
    }
  }

  lemma JoinAt(p: seq<State>, q: seq<State>)
    requires |p| > 0 && |q| > 0 && p[|p| - 1] == q[0]
    requires Path(p[0], p, p[|p| - 1]) && Path(q[0], q, q[|q| - 1])
    ensures Path(p[0], p + q[1..], q[|q| - 1])
  {
    if |q| > 1 {
      assert Next(q[0], q[1]);
      forall i, j | 0 <= i && j == i + 1 < |q[1..]| ensures Next(q[1..][i], q[1..][j]) {
        assert Next(q[i + 1], q[j + 1]);
      }
      JoinPaths(p, q[1..]);
    } else {
      assert p + q[1..] == p;
    }
  }

  lemma NoThreadsNoEntries(s: State)
    requires Inv(s) && s.threads == map[]
    ensures s.table == map[]
  {
    assert forall id | id in s.table :: |Users(s.threads, s.table[id])| > 0;
    assert forall a :: Users(s.threads, a) == {};
  }

  /** The thread itself if its mutex is free, otherwise the thread that holds it. */
  lemma SomeThreadReady(s: State) returns (t: Tid)
    requires Inv(s) && s.threads != map[]
    ensures t in s.threads && s.threads[t].entry < |s.pool|
    ensures s.threads[t].Waiting? ==> s.pool[s.threads[t].entry].holder.Free?
  {
    t :| t in s.threads;
    var a := s.threads[t].entry;
    if s.threads[t].Waiting? && Held(s, a) {
      t := s.pool[a].holder.t;
      assert Holds(s, t, a);
    }
  }

  /** The only step that is left to a thread that is not blocked. */
  ghost function NextStepOf(s: State, t: Tid): Step
    requires t in s.threads
  {
    match s.threads[t]
    case Waiting(_, _) => Lock(t)
    case Inside(_, _) => Unlock(t)
    case Leaving(_, _) => Decrement(t, 0)
  }

  ghost function StepsLeft(p: Phase): nat {
    match p case Waiting(_, _) => 3 case Inside(_, _) => 2 case Leaving(_, _) => 1
  }

  lemma NextStepProgresses(s: State, t: Tid)
    requires WellFormed(s) && t in s.threads
    requires s.threads[t].Waiting? ==> s.pool[s.threads[t].entry].holder.Free?
    ensures Enabled(s, NextStepOf(s, t))
    ensures var s' := Apply(s, NextStepOf(s, t));
      if s.threads[t].Leaving? then s'.threads.Keys == s.threads.Keys - {t}
      else s'.threads.Keys == s.threads.Keys && StepsLeft(s'.threads[t]) < StepsLeft(s.threads[t]) && !s'.threads[t].Waiting?
  {
  }

  lemma {:induction false} FinishThread(s: State, t: Tid) returns (path: seq<State>, s': State)
    requires Inv(s) && t in s.threads
    requires s.threads[t].Waiting? ==> s.pool[s.threads[t].entry].holder.Free?
    ensures |path| > 0 && Path(s, path, s') && Inv(s') && s'.threads.Keys == s.threads.Keys - {t}
    decreases StepsLeft(s.threads[t])
  {
    NextStepProgresses(s, t);
    var s1 := TakeStep(s, NextStepOf(s, t));
    if s.threads[t].Leaving? {
      path, s' := [s, s1], s1;
    } else {
      var rest;
      rest, s' := FinishThread(s1, t);
      path := [s] + rest;
      JoinPaths([s], rest);
    }
  }

  // ------------------------------------------------------ the Go data structure

  class SessionLockEntry {
    var locked: bool
    var refCount: int
    var lastUsed: int

    constructor ()
      ensures !locked && refCount == 0 && lastUsed == 0
    {
      locked, refCount, lastUsed := false, 0, 0;
    }

    ghost predicate Carries(e: Entry)
      reads this
    {
      refCount == e.refCount && lastUsed == e.lastUsed && locked == e.holder.HeldBy?
    }
  }

  /** The lock table itself.  Each method is one atomic section of
      `acquireSessionLock`, `releaseSessionLock` or `cleanupStaleSessionLocks`. */
  class ChatApp {
    var sessionLocks: map<Id, SessionLockEntry>
    ghost var pool: seq<SessionLockEntry>

    /** The heap carries the abstract state: addresses are positions in `pool`. */
    ghost predicate Represents(s: State)
      reads this, pool
    {
      && WellFormed(s)
      && |pool| == |s.pool|
      && (forall i, j | 0 <= i < |pool| && 0 <= j < |pool| && pool[i] == pool[j] :: i == j)
      && (forall i | 0 <= i < |pool| :: pool[i].Carries(s.pool[i]))
      && sessionLocks.Keys == s.table.Keys
      && (forall id | id in s.table :: sessionLocks[id] == pool[s.table[id]])
    }

    constructor ()
      ensures Represents(INIT) && fresh(pool)
    {
      sessionLocks, pool := map[], [];
    }

    method EnsureEntry(ghost s: State, id: Id) returns (entry: SessionLockEntry)
      requires Represents(s)
      modifies this
      ensures Represents(WithEntry(s, id)) && entry == pool[WithEntry(s, id).table[id]]
      ensures if id in s.table then pool == old(pool) && entry in pool else pool == old(pool) + [entry] && fresh(entry)
    {
      if id in sessionLocks {
        entry := sessionLocks[id];
      } else {
        entry := new SessionLockEntry();
        sessionLocks := sessionLocks[id := entry];
        pool := pool + [entry];
      }
    }

    /** First half of `acquireSessionLock`, under `sessionLocksMu`. */
    method LookupAndCount(ghost s: State, ghost t: Tid, id: Id, now: int) returns (entry: SessionLockEntry)
      requires Represents(s) && Enabled(s, Lookup(t, id, now))
      modifies this, pool
      ensures Represents(Apply(s, Lookup(t, id, now)))
      ensures entry == pool[Apply(s, Lookup(t, id, now)).threads[t].entry]
      ensures old(pool) <= pool && fresh(pool[|old(pool)|..])
    {
      entry := EnsureEntry(s, id);
      CountEntry(WithEntry(s, id), t, id, entry, now);
    }

    method CountEntry(ghost s: State, ghost t: Tid, id: Id, entry: SessionLockEntry, now: int)
      requires Represents(s) && id in s.table && entry == pool[s.table[id]]
      modifies entry
      ensures Represents(CountUser(s, t, id, now))
    {
      entry.refCount := entry.refCount + 1;
      entry.lastUsed := now;
    }

    /** `entry.mu.Lock()`, at the instant it succeeds. */
    method LockEntry(ghost s: State, ghost t: Tid, entry: SessionLockEntry)
      requires Represents(s) && Enabled(s, Lock(t)) && entry == pool[s.threads[t].entry]
      modifies entry
      ensures Represents(Apply(s, Lock(t))) && pool == old(pool)
    {
      entry.locked := true;
    }

    /** `entry.mu.Unlock()`, the first action of `releaseSessionLock`. */
    method UnlockEntry(ghost s: State, ghost t: Tid, entry: SessionLockEntry)
      requires Represents(s) && Enabled(s, Unlock(t)) && entry == pool[s.threads[t].entry]
      modifies entry
      ensures Represents(Apply(s, Unlock(t))) && pool == old(pool)
    {
      entry.locked := false;
    }

    /** The rest of `releaseSessionLock`, under `sessionLocksMu`. */
    method DecrementEntry(ghost s: State, ghost t: Tid, id: Id, entry: SessionLockEntry, now: int)
      requires Represents(s) && Enabled(s, Decrement(t, now))
      requires id == s.threads[t].id && entry == pool[s.threads[t].entry]
      modifies this`sessionLocks, entry
      ensures Represents(Apply(s, Decrement(t, now)))
    {
      if id !in sessionLocks || sessionLocks[id] != entry {
        return;
      }
      LowerCount(s, id, entry, now);
      assert entry.Carries(Lowered(s, s.table[id], now).pool[s.table[id]]);
      if entry.refCount == 0 {
        sessionLocks := sessionLocks - {id};
      }
    }

    method LowerCount(ghost s: State, id: Id, entry: SessionLockEntry, now: int)
      requires Represents(s) && id in s.table && entry == pool[s.table[id]]
      modifies entry
      ensures Represents(Lowered(s, s.table[id], now))
    {
      if entry.refCount > 0 {
        entry.refCount := entry.refCount - 1;
      }
      entry.lastUsed := now;
    }

    /** One tick of `cleanupStaleSessionLocks`; the map is ranged over in any order. */
    method CleanupTick(ghost s: State, now: int)
      requires Represents(s)
      modifies this`sessionLocks
      ensures Represents(Apply(s, Cleanup(now)))
    {
      var todo := sessionLocks.Keys;
      while todo != {}
        invariant todo <= s.table.Keys
        invariant sessionLocks.Keys
          == set id | id in s.table && (id in todo || !Stale(s.pool[s.table[id]], now))
        invariant forall id | id in sessionLocks :: sessionLocks[id] == pool[s.table[id]]
        decreases todo
      {
        var id :| id in todo;
        var entry := sessionLocks[id];
        assert entry.Carries(s.pool[s.table[id]]);
        if entry.refCount == 0 && now - entry.lastUsed > SESSION_LOCK_TTL {
          sessionLocks := sessionLocks - {id};
        }
        todo := todo - {id};
      }
    }
  }
}

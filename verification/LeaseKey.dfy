/** The Redis key behind a lease, as the server sees it: SET NX EX to acquire, compare-and-set
    scripts to renew and release.  Times are nanoseconds. */
module LeaseKey {

  type Instance = string

  const SECOND := 1_000_000_000
  const MILLISECOND := 1_000_000
  const MIN_RENEW_INTERVAL := 500_000_000

  // ------------------------------------------------- durations read off the ttl

  /** EX takes whole seconds, at least one. */
  function SetLife(ttl: int): int {
    (if ttl / SECOND <= 0 then 1 else ttl / SECOND) * SECOND
  }

  /** PEXPIRE takes whole milliseconds. */
  function RenewLife(ttl: int): int {
    ttl / MILLISECOND * MILLISECOND
  }

  function RenewInterval(ttl: int): int {
    if ttl / 3 < MIN_RENEW_INTERVAL then MIN_RENEW_INTERVAL else ttl / 3
  }

  function WatchPeriod(ttl: int): int {
    ttl / 3
  }

  function Min(a: int, b: int): int {
    if a < b then a else b
  }

  function Max(a: int, b: int): int {
    if a < b then b else a
  }

  // ------------------------------------------------------------------- the key

  datatype Key = Absent | Owned(owner: Instance, deadline: int)

  predicate Live(k: Key, now: int) {
    k.Owned? && now < k.deadline
  }

  predicate HeldBy(k: Key, now: int, i: Instance) {
    Live(k, now) && k.owner == i
  }

  function SetNX(k: Key, now: int, i: Instance, life: int): Key {
    if Live(k, now) then k else Owned(i, now + life)
  }

  function EvalRenew(k: Key, now: int, i: Instance, life: int): Key {
    if HeldBy(k, now, i) then (if life <= 0 then Absent else Owned(i, now + life)) else k
  }

  function EvalRelease(k: Key, now: int, i: Instance): Key {
    if HeldBy(k, now, i) then Absent else k
  }

  // ------------------------------------------------- who holds the key afterwards

  /** SET NX EX gives a free key to the caller for its lifetime, and leaves a live one as it is. */
  lemma AcquiredExactly(k: Key, now: int, i: Instance, life: int, t: int, j: Instance)
    requires now <= t
    ensures HeldBy(SetNX(k, now, i, life), t, j) <==> if Live(k, now) then HeldBy(k, t, j) else j == i && t < now + life
  {
  }

  /** The renew script gives its owner a new lifetime, and nobody else anything. */
  lemma RenewedExactly(k: Key, now: int, i: Instance, life: int, t: int, j: Instance)
    requires now <= t
    ensures HeldBy(EvalRenew(k, now, i, life), t, j) <==> if HeldBy(k, now, i) then j == i && t < now + life else HeldBy(k, t, j)
  {
  }

  /** The release script takes the key from its caller and from nobody else. */
  lemma ReleasedExactly(k: Key, now: int, i: Instance, t: int, j: Instance)
    requires now <= t
    ensures HeldBy(EvalRelease(k, now, i), t, j) <==> HeldBy(k, t, j) && j != i
  {
  }
}

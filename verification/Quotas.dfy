/** Balanced quotas over archive dates (scripts/aiops/freeze_recorded_holdout.py, `balanced_quotas`). */
module Quotas {

  function Sum(s: seq<nat>): nat {
    if s == [] then 0 else Sum(s[..|s| - 1]) + s[|s| - 1]
  }

  function Min(a: nat, b: nat): nat {
    if a < b then a else b
  }

  /** Everyone filled up to `level`, the dates before `split` up to one more. */
  function Level(capacities: seq<nat>, level: nat, split: nat): (q: seq<nat>)
    ensures |q| == |capacities|
    ensures forall i | 0 <= i < |q| :: q[i] == Min(capacities[i], if i < split then level + 1 else level)
  {
    seq(|capacities|, i requires 0 <= i < |capacities| => Min(capacities[i], if i < split then level + 1 else level))
  }

  predicate Within(q: seq<nat>, capacities: seq<nat>) {
    |q| == |capacities| && forall i | 0 <= i < |q| :: q[i] <= capacities[i]
  }

  function Head(j: nat, i: nat): nat {
    if j < i then 1 else 0
  }

  /** A date with unused cases is at most one behind any earlier date and behind no later one. */
  ghost predicate Balanced(q: seq<nat>, capacities: seq<nat>) {
    && Within(q, capacities)
    && forall i, j | 0 <= i < |q| && 0 <= j < |q| && q[i] < capacities[i] :: q[j] <= q[i] + Head(j, i)
  }

  // ---------------------------------------------------------------- sums

  lemma {:induction false} SumUpdate(s: seq<nat>, i: nat, x: nat)
    requires i < |s|
    ensures Sum(s[i := x]) == Sum(s) - s[i] + x
  {
    var n := |s| - 1;
    if i == n {
      assert s[i := x][..n] == s[..n];
    } else {
      SumUpdate(s[..n], i, x);
      assert s[i := x][..n] == s[..n][i := x];
    }
  }

  lemma {:induction false} SumZero(s: seq<nat>)
    requires forall i | 0 <= i < |s| :: s[i] == 0
    ensures Sum(s) == 0
  {
    if s != [] {
      SumZero(s[..|s| - 1]);
    }
  }

  /** Of two lists with the same sum, neither lies below the other unless they are equal. */
  lemma {:induction false} SumMonotone(a: seq<nat>, b: seq<nat>)
    requires |a| == |b| && forall i | 0 <= i < |a| :: a[i] <= b[i]
    ensures Sum(a) <= Sum(b)
    ensures Sum(a) == Sum(b) ==> a == b
  {
    if a != [] {
      var n := |a| - 1;
      SumMonotone(a[..n], b[..n]);
      if Sum(a) == Sum(b) {
        assert a == a[..n] + [a[n]] && b == b[..n] + [b[n]];
      }
    }
  }

  // ---------------------------------------------------------------- balance

  lemma LevelIsBalanced(capacities: seq<nat>, level: nat, split: nat)
    ensures Balanced(Level(capacities, level, split), capacities)
  {
  }

  /** Capacities and total leave only one balanced allocation. */
  lemma BalancedUnique(p: seq<nat>, q: seq<nat>, capacities: seq<nat>)
    requires Balanced(p, capacities) && Balanced(q, capacities) && Sum(p) == Sum(q)
    ensures p == q
  {
    if i: nat, j: nat :| i < |p| && j < |p| && p[i] < q[i] && p[j] > q[j] {
      assert false;
    } else if i: nat :| i < |p| && p[i] < q[i] {
      SumMonotone(p, q);
    } else {
      SumMonotone(q, p);
    }
  }

  /**
   * Max-min fairness: whoever gives one date more cases than the balanced allocation takes
   * cases from a date that then has fewer than it.
   */
  lemma BalancedIsFair(q: seq<nat>, other: seq<nat>, capacities: seq<nat>, i: nat)
    requires Balanced(q, capacities) && Within(other, capacities) && Sum(other) == Sum(q)
    requires i < |q| && other[i] > q[i]
    ensures exists j: nat :: j < |q| && other[j] < q[j] && other[j] < other[i]
  {
    if forall j: nat | j < |q| :: other[j] >= q[j] {
      SumMonotone(q, other);
    } else {
      var j: nat :| j < |q| && other[j] < q[j];
      assert q[j] <= q[i] + Head(j, i);
    }
  }

  // ---------------------------------------------------------------- the round robin

  datatype QuotaError = TooFewCases(available: nat) | UnableToAllocate

  datatype QuotaResult = Quotas(value: seq<nat>) | Refused(error: QuotaError)

  lemma LevelEnds(capacities: seq<nat>, level: nat)
    ensures Level(capacities, level, |capacities|) == Level(capacities, level + 1, 0)
  {
  }

  lemma LevelAdvances(capacities: seq<nat>, level: nat, i: nat)
    requires i < |capacities|
    ensures var q := Level(capacities, level, i);
            Level(capacities, level, i + 1) == if q[i] >= capacities[i] then q else q[i := q[i] + 1]
  {
  }

  /** A round that gives nothing away means that everything is given away. */
  lemma FullLevel(capacities: seq<nat>, level: nat)
    requires forall i | 0 <= i < |capacities| :: capacities[i] <= level
    ensures Level(capacities, level, 0) == capacities
  {
  }

  /** One round: a case for each date that has any left, until none remain to be given. */
  method Round(capacities: seq<nat>, start: seq<nat>, budget: nat, ghost level: nat)
    returns (quotas: seq<nat>, remaining: nat, ghost split: nat)
    requires start == Level(capacities, level, 0) && budget > 0
    ensures remaining <= budget && Sum(quotas) + remaining == Sum(start) + budget
    ensures quotas == Level(capacities, level, split) && (remaining > 0 ==> split == |capacities|)
    ensures Sum(start) < Sum(capacities) ==> remaining < budget
  {
    quotas, remaining := start, budget;
    for i := 0 to |capacities|
      invariant 0 < remaining <= budget && Sum(quotas) + remaining == Sum(start) + budget
      invariant quotas == Level(capacities, level, i)
      invariant remaining == budget ==> forall k | 0 <= k < i :: capacities[k] <= level
    {
      LevelAdvances(capacities, level, i);
      if quotas[i] < capacities[i] {
        SumUpdate(quotas, i, quotas[i] + 1);
        quotas, remaining := quotas[i := quotas[i] + 1], remaining - 1;
        if remaining == 0 {
          split := i + 1;
          return;
        }
      }
    }
    split := |capacities|;
    if remaining == budget {
      FullLevel(capacities, level);
    }
  }

  /**
   * One case per date and round until `total` are given away. Refuses exactly when there
   * are too few cases; the error for a round without progress is never reached.
   */
  method BalancedQuotas(capacities: seq<nat>, total: int) returns (result: QuotaResult)
    ensures result.Refused? <==> Sum(capacities) < total
    ensures result.Refused? ==> result.error == TooFewCases(Sum(capacities))
    ensures result.Quotas? ==>
              && Balanced(result.value, capacities) && Sum(result.value) == (if total > 0 then total else 0)
              && exists level, split :: result.value == Level(capacities, level, split)
  {
    if Sum(capacities) < total {
      return Refused(TooFewCases(Sum(capacities)));
    }
    var quotas := seq(|capacities|, i => 0);
    var remaining: nat := if total > 0 then total else 0;
    ghost var level, split := 0, 0;
    assert quotas == Level(capacities, 0, 0);
    SumZero(quotas);
    while remaining > 0
      invariant quotas == Level(capacities, level, split)
      invariant split == 0 || remaining == 0
      invariant Sum(quotas) + remaining == if total > 0 then total else 0
    {
      var before := remaining;
      quotas, remaining, split := Round(capacities, quotas, remaining, level);
      if remaining == before {
        return Refused(UnableToAllocate);
      }
      if remaining > 0 {
        LevelEnds(capacities, level);
        level, split := level + 1, 0;
      }
    }
    LevelIsBalanced(capacities, level, split);
    result := Quotas(quotas);
  }
}

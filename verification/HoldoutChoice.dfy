/** Which cases of a date are drawn: those of lowest digest, as many as the balanced quotas say. */
module HoldoutChoice {
  import opened Text
  import opened Sorting
  import opened Quotas
  import opened Holdout
  import opened HoldoutChain

  /** Lower digest of seed, date and id, or the same digest and lower id. */
  ghost predicate Precedes(env: Env, seed: string, date: string, a: string, b: string) {
    var x, y := env.digest(seed, date, a), env.digest(seed, date, b);
    StringLeq(x, y) && (x == y ==> StringLeq(a, b))
  }

  /** An unused case of the date has this id. */
  ghost predicate Drawable(r: Request, date: string, id: string) {
    && id !in AllUsed(r.priors)
    && exists i | 0 <= i < |r.cases| :: Strip(r.cases[i].uuid) == id && r.cases[i].localDate == OnDate(date)
  }

  lemma DrawableIsCandidate(r: Request, date: string, id: string)
    ensures Drawable(r, date, id) <==> id in CandidatesFor(r.cases, AllUsed(r.priors), date)
  {
    if Drawable(r, date, id) {
      var i :| 0 <= i < |r.cases| && Strip(r.cases[i].uuid) == id && r.cases[i].localDate == OnDate(date);
      CaseIsCandidate(r.cases, AllUsed(r.priors), date, i);
    }
    if id in CandidatesFor(r.cases, AllUsed(r.priors), date) {
      var i := CandidateCase(r.cases, AllUsed(r.priors), date, id);
    }
  }

  lemma {:induction false} HereIsChosen(env: Env, r: Request, used: set<string>, quotas: seq<nat>, n: nat, k: nat, id: string)
    requires Settled(r, used, quotas) && k < n <= |r.dates| && id in ChosenHere(env, r, used, quotas, k)
    ensures id in Chosen(env, r, used, quotas, n)
  {
    if k < n - 1 {
      HereIsChosen(env, r, used, quotas, n - 1, k, id);
    }
  }

  lemma {:induction false} ChosenIsHere(env: Env, r: Request, used: set<string>, quotas: seq<nat>, n: nat, k: nat, id: string)
    requires Settled(r, used, quotas) && n <= |r.dates| && k < |r.dates| && id in Chosen(env, r, used, quotas, n)
    requires id in CandidatesFor(r.cases, used, r.dates[k])
    ensures id in ChosenHere(env, r, used, quotas, k)
  {
    if id in Chosen(env, r, used, quotas, n - 1) {
      ChosenIsHere(env, r, used, quotas, n - 1, k, id);
    } else {
      OnlyHere(env, r, used, quotas, n - 1, k, id);
    }
  }

  lemma OnlyHere(env: Env, r: Request, used: set<string>, quotas: seq<nat>, n: nat, k: nat, id: string)
    requires Settled(r, used, quotas) && n < |r.dates| && k < |r.dates|
    requires id in ChosenHere(env, r, used, quotas, n) && id in CandidatesFor(r.cases, used, r.dates[k])
    ensures n == k
  {
    ChosenHereFacts(env, r, used, quotas, n);
    if n != k {
      OneDateEach(r.cases, used, r.dates[n], r.dates[k], id);
    }
  }

  lemma FirstHas(ids: seq<string>, n: nat)
    ensures |First(ids, n)| <= |ids|
    ensures forall j | 0 <= j < |First(ids, n)| :: ids[j] in First(ids, n)
  {
    forall j | 0 <= j < |First(ids, n)| ensures ids[j] in First(ids, n) {
      assert First(ids, n)[j] == ids[j];
    }
  }

  /** The first of a ranking precede the others. */
  lemma FirstPrecede(env: Env, seed: string, date: string, ids: seq<string>, n: nat, a: string, b: string)
    requires a in First(RankedIds(env, seed, date, ids), n)
    requires b in ids && b !in First(RankedIds(env, seed, date, ids), n)
    ensures Precedes(env, seed, date, a, b)
  {
    var ranked := RankedIds(env, seed, date, ids);
    RankOrder(env, seed, date);
    SortBySorted(RankLeq(env, seed, date), ids);
    SortByPermutes(RankLeq(env, seed, date), ids);
    InPermutation(ids, ranked, b);
    var i :| 0 <= i < |First(ranked, n)| && First(ranked, n)[i] == a;
    var j :| 0 <= j < |ranked| && ranked[j] == b;
    FirstHas(ranked, n);
    if j >= |First(ranked, n)| {
      assert ranked[i] == a;
      assert RankLeq(env, seed, date)(ranked[i], ranked[j]);
      StringLeqTotal(env.digest(seed, date, a), env.digest(seed, date, a));
    }
  }

  /** Of the unused cases of a date, each one drawn precedes each one left. */
  lemma LowestDigestsDrawn(env: Env, r: Request, m: Manifest, k: nat, a: string, b: string)
    requires Freezes(env, r, m) && k < |Unique(r.dates)|
    requires Drawable(r, Unique(r.dates)[k], a) && Drawable(r, Unique(r.dates)[k], b)
    requires a in m.holdout && b !in m.holdout
    ensures Precedes(env, r.seed, Unique(r.dates)[k], a, b)
  {
    var quotas :| IsManifest(env, r, quotas, m);
    var p, used := Plain(r), AllUsed(r.priors);
    Settle(env, r, quotas);
    DrawableIsCandidate(r, p.dates[k], a);
    DrawableIsCandidate(r, p.dates[k], b);
    ChosenIsHere(env, p, used, quotas, |p.dates|, k, a);
    if b in ChosenHere(env, p, used, quotas, k) {
      HereIsChosen(env, p, used, quotas, |p.dates|, k, b);
    } else {
      FirstPrecede(env, r.seed, p.dates[k], CandidatesFor(r.cases, used, p.dates[k]), quotas[k], a, b);
    }
  }

  ghost function DrawnOn(r: Request, m: Manifest, date: string): set<string> {
    set id | id in m.holdout && Drawable(r, date, id)
  }

  lemma {:induction false} DistinctSize(ids: seq<string>)
    requires Distinct(ids)
    ensures |IdSet(ids)| == |ids|
  {
    if ids != [] {
      var n := |ids| - 1;
      DistinctPrefix(ids, n);
      DistinctSize(ids[..n]);
      assert IdSet(ids) == IdSet(ids[..n]) + {ids[n]};
      assert ids[n] !in IdSet(ids[..n]);
    } else {
      assert IdSet(ids) == {};
    }
  }

  /** Each date gives as many cases as its quota, and the quotas are the balanced ones. */
  lemma QuotasAreDrawn(env: Env, r: Request, m: Manifest) returns (quotas: seq<nat>)
    requires Freezes(env, r, m)
    ensures Balanced(quotas, Capacities(r.cases, AllUsed(r.priors), Unique(r.dates))) && Sum(quotas) == r.total
    ensures forall k | 0 <= k < |Unique(r.dates)| :: |DrawnOn(r, m, Unique(r.dates)[k])| == quotas[k]
  {
    quotas :| IsManifest(env, r, quotas, m);
    var p, used := Plain(r), AllUsed(r.priors);
    Settle(env, r, quotas);
    forall k | 0 <= k < |p.dates| ensures |DrawnOn(r, m, p.dates[k])| == quotas[k] {
      DrawnIsHere(env, r, m, quotas, k);
    }
  }

  lemma DrawnIsHere(env: Env, r: Request, m: Manifest, quotas: seq<nat>, k: nat)
    requires Freezes(env, r, m) && IsManifest(env, r, quotas, m) && k < |Unique(r.dates)|
    ensures |quotas| == |Unique(r.dates)| && |DrawnOn(r, m, Unique(r.dates)[k])| == quotas[k]
  {
    var p, used := Plain(r), AllUsed(r.priors);
    Settle(env, r, quotas);
    var here := ChosenHere(env, p, used, quotas, k);
    ChosenHereFacts(env, p, used, quotas, k);
    forall id ensures id in DrawnOn(r, m, p.dates[k]) <==> id in IdSet(here) {
      DrawableIsCandidate(r, p.dates[k], id);
      if id in here {
        HereIsChosen(env, p, used, quotas, |p.dates|, k, id);
      }
      if id in m.holdout && id in CandidatesFor(r.cases, used, p.dates[k]) {
        ChosenIsHere(env, p, used, quotas, |p.dates|, k, id);
      }
    }
    assert DrawnOn(r, m, p.dates[k]) == IdSet(here);
    DistinctSize(here);
  }
}

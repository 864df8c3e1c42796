/** What every frozen manifest, and every chain of them, guarantees. */
module HoldoutChain {
  import opened Text
  import opened Sorting
  import opened Quotas
  import opened Holdout

  // ---------------------------------------------------------------- candidates of a date

  /** A candidate is the id of an unused case of the date. */
  lemma {:induction false} CandidateCase(cases: seq<Case>, used: set<string>, date: string, id: string) returns (i: nat)
    requires id in CandidatesFor(cases, used, date)
    ensures i < |cases| && Strip(cases[i].uuid) == id && Fits(cases[i], used, date)
  {
    var n := |cases| - 1;
    if id in CandidatesFor(cases[..n], used, date) {
      i := CandidateCase(cases[..n], used, date, id);
    } else {
      i := n;
    }
  }

  lemma IdsPrefix(cases: seq<Case>, n: nat)
    requires n <= |cases|
    ensures Ids(cases[..n]) == Ids(cases)[..n]
  {
  }

  lemma DistinctPrefix<T>(s: seq<T>, n: nat)
    requires Distinct(s) && n <= |s|
    ensures Distinct(s[..n])
  {
  }

  lemma DistinctSnoc<T>(s: seq<T>, x: T)
    requires Distinct(s) && x !in s
    ensures Distinct(s + [x])
  {
  }

  lemma {:induction false} CandidatesDistinct(cases: seq<Case>, used: set<string>, date: string)
    requires Distinct(Ids(cases))
    ensures Distinct(CandidatesFor(cases, used, date))
  {
    if cases != [] {
      var n := |cases| - 1;
      IdsPrefix(cases, n);
      DistinctPrefix(Ids(cases), n);
      CandidatesDistinct(cases[..n], used, date);
      var before, id := CandidatesFor(cases[..n], used, date), Strip(cases[n].uuid);
      NotYet(cases, used, date);
      if Fits(cases[n], used, date) {
        DistinctSnoc(before, id);
      }
    }
  }

  lemma SameId(cases: seq<Case>, i: nat, j: nat)
    requires Distinct(Ids(cases)) && i < |cases| && j < |cases| && Strip(cases[i].uuid) == Strip(cases[j].uuid)
    ensures i == j
  {
    assert Ids(cases)[i] == Strip(cases[i].uuid) && Ids(cases)[j] == Strip(cases[j].uuid);
  }

  lemma NotYet(cases: seq<Case>, used: set<string>, date: string)
    requires cases != [] && Distinct(Ids(cases))
    ensures Strip(cases[|cases| - 1].uuid) !in CandidatesFor(cases[..|cases| - 1], used, date)
  {
    var n := |cases| - 1;
    var id := Strip(cases[n].uuid);
    if id in CandidatesFor(cases[..n], used, date) {
      var i := CandidateCase(cases[..n], used, date, id);
      SameId(cases, i, n);
    }
  }

  /** An unused case of the date is a candidate. */
  lemma {:induction false} CaseIsCandidate(cases: seq<Case>, used: set<string>, date: string, i: nat)
    requires i < |cases| && Fits(cases[i], used, date)
    ensures Strip(cases[i].uuid) in CandidatesFor(cases, used, date)
  {
    var n := |cases| - 1;
    if i < n {
      CaseIsCandidate(cases[..n], used, date, i);
    }
  }

  lemma OneDateEach(cases: seq<Case>, used: set<string>, d: string, e: string, id: string)
    requires Distinct(Ids(cases)) && d != e && id in CandidatesFor(cases, used, d)
    ensures id !in CandidatesFor(cases, used, e)
  {
    var i := CandidateCase(cases, used, d, id);
    if id in CandidatesFor(cases, used, e) {
      var j := CandidateCase(cases, used, e, id);
      SameId(cases, i, j);
    }
  }

  // ---------------------------------------------------------------- the chosen cases

  function Plain(r: Request): Request {
    r.(dates := Unique(r.dates))
  }

  /** The accepted request and its quotas, as the choice needs them. */
  ghost predicate Settled(r: Request, used: set<string>, quotas: seq<nat>) {
    && Distinct(Ids(r.cases)) && "" !in Ids(r.cases) && Distinct(r.dates)
    && Within(quotas, Capacities(r.cases, used, r.dates))
  }

  ghost function Chosen(env: Env, r: Request, used: set<string>, quotas: seq<nat>, n: nat): seq<string>
    requires n <= |r.dates| && n <= |quotas|
  {
    Pick(Rankings(env, r, used), quotas, n)
  }

  ghost function ChosenHere(env: Env, r: Request, used: set<string>, quotas: seq<nat>, n: nat): seq<string>
    requires Settled(r, used, quotas) && n < |r.dates|
  {
    First(Rankings(env, r, used)[n], quotas[n])
  }

  lemma RankedFacts(env: Env, seed: string, date: string, ids: seq<string>)
    requires Distinct(ids)
    ensures multiset(RankedIds(env, seed, date, ids)) == multiset(ids) && Distinct(RankedIds(env, seed, date, ids))
  {
    SortByPermutes(RankLeq(env, seed, date), ids);
    DistinctPermutes(ids, RankedIds(env, seed, date, ids));
  }

  lemma ChosenHereFacts(env: Env, r: Request, used: set<string>, quotas: seq<nat>, n: nat)
    requires Settled(r, used, quotas) && n < |r.dates|
    ensures Distinct(ChosenHere(env, r, used, quotas, n))
    ensures forall id | id in ChosenHere(env, r, used, quotas, n) :: id in CandidatesFor(r.cases, used, r.dates[n])
  {
    var date := r.dates[n];
    var ids := CandidatesFor(r.cases, used, date);
    CandidatesDistinct(r.cases, used, date);
    RankedFacts(env, r.seed, date, ids);
    DistinctPrefix(RankedIds(env, r.seed, date, ids), quotas[n]);
    forall id | id in ChosenHere(env, r, used, quotas, n) ensures id in ids {
      InPermutation(RankedIds(env, r.seed, date, ids), ids, id);
    }
  }

  lemma DistinctConcat<T>(a: seq<T>, b: seq<T>)
    requires Distinct(a) && Distinct(b) && forall x | x in a :: x !in b
    ensures Distinct(a + b)
  {
    forall i, j | 0 <= i < j < |a + b| ensures (a + b)[i] != (a + b)[j] {
      if i < |a| <= j {
        assert a[i] in a && b[j - |a|] in b;
      }
    }
  }

  /** Chosen ids are distinct candidates of the dates so far, as many as the quotas say. */
  lemma {:induction false} ChosenFacts(env: Env, r: Request, used: set<string>, quotas: seq<nat>, n: nat)
    requires Settled(r, used, quotas) && n <= |r.dates|
    ensures Distinct(Chosen(env, r, used, quotas, n)) && |Chosen(env, r, used, quotas, n)| == Sum(quotas[..n])
    ensures forall id | id in Chosen(env, r, used, quotas, n) ::
              exists k | 0 <= k < n :: id in CandidatesFor(r.cases, used, r.dates[k])
  {
    if n > 0 {
      var before, here := Chosen(env, r, used, quotas, n - 1), ChosenHere(env, r, used, quotas, n - 1);
      ChosenFacts(env, r, used, quotas, n - 1);
      ChosenHereFacts(env, r, used, quotas, n - 1);
      assert quotas[..n][..n - 1] == quotas[..n - 1];
      forall id | id in before ensures id !in here {
        var k :| 0 <= k < n - 1 && id in CandidatesFor(r.cases, used, r.dates[k]);
        OneDateEach(r.cases, used, r.dates[k], r.dates[n - 1], id);
      }
      DistinctConcat(before, here);
    }
  }

  lemma ChosenClean(env: Env, r: Request, used: set<string>, quotas: seq<nat>, n: nat, id: string)
    requires Settled(r, used, quotas) && n <= |r.dates| && id in Chosen(env, r, used, quotas, n)
    ensures CleanId(id) && id !in used
  {
    ChosenFacts(env, r, used, quotas, n);
    var k :| 0 <= k < n && id in CandidatesFor(r.cases, used, r.dates[k]);
    var i := CandidateCase(r.cases, used, r.dates[k], id);
    assert Ids(r.cases)[i] == id;
    StripClean(r.cases[i].uuid);
  }

  // ---------------------------------------------------------------- one manifest

  lemma {:induction false} UnionMember(cs: seq<Contribution>, id: string) returns (i: nat)
    requires id in UnionOf(cs)
    ensures i < |cs| && id in cs[i].used
  {
    var n := |cs| - 1;
    if id in cs[n].used {
      i := n;
    } else {
      i := UnionMember(cs[..n], id);
    }
  }

  lemma {:induction false} UnionHas(cs: seq<Contribution>, i: nat, id: string)
    requires i < |cs| && id in cs[i].used
    ensures id in UnionOf(cs)
  {
    if i < |cs| - 1 {
      UnionHas(cs[..|cs| - 1], i, id);
    }
  }

  lemma {:induction false} ConcatMember(cs: seq<Contribution>, id: string) returns (i: nat)
    requires id in ConcatOf(cs)
    ensures i < |cs| && id in cs[i].development
  {
    var n := |cs| - 1;
    if id in cs[n].development {
      i := n;
    } else {
      i := ConcatMember(cs[..n], id);
    }
  }

  lemma UsedClean(m: Manifest, id: string)
    requires id in Used(m)
    ensures CleanId(id)
  {
    UniqueIsClean(m.development);
    UniqueIsClean(m.holdout);
    UniqueIsClean(m.consumed);
  }

  lemma AllUsedClean(priors: seq<Manifest>, id: string)
    requires id in AllUsed(priors)
    ensures CleanId(id)
  {
    var i := UnionMember(Contributions(priors), id);
    UsedClean(priors[i], id);
  }

  lemma DevelopmentUsed(priors: seq<Manifest>, id: string)
    requires id in Developments(priors)
    ensures id in AllUsed(priors) && CleanId(id)
  {
    var cs := Contributions(priors);
    var i := ConcatMember(cs, id);
    assert id in DevelopmentOf(priors[i]);
    UnionHas(cs, i, id);
    AllUsedClean(priors, id);
  }

  lemma DevelopmentsUsed(priors: seq<Manifest>)
    ensures IdSet(Developments(priors)) <= AllUsed(priors)
    ensures forall id | id in Developments(priors) :: CleanId(id)
  {
    forall id | id in Developments(priors) ensures id in AllUsed(priors) && CleanId(id) {
      DevelopmentUsed(priors, id);
    }
  }

  lemma DevelopmentsNotEmpty(priors: seq<Manifest>)
    requires priors != [] && AllOk(Contributions(priors))
    ensures Developments(priors) != []
  {
    var cs := Contributions(priors);
    assert cs[|cs| - 1].ok;
  }

  /** Clean values all survive. */
  lemma {:induction false} UniqueKeeps(values: seq<string>)
    requires forall id | id in values :: CleanId(id)
    ensures IdSet(Unique(values)) == IdSet(values)
  {
    if values != [] {
      var n := |values| - 1;
      UniqueKeeps(values[..n]);
      assert values == values[..n] + [values[n]];
      assert IdSet(values) == IdSet(values[..n]) + {values[n]};
      assert CleanId(values[n]);
    }
  }

  lemma ListsClean(ids: seq<string>, s: set<string>)
    requires Lists(ids, s) && forall id | id in s :: CleanId(id)
    ensures CleanIds(ids)
  {
    forall i | 0 <= i < |ids| ensures CleanId(ids[i]) {
      assert ids[i] in IdSet(ids);
    }
  }

  lemma Settle(env: Env, r: Request, quotas: seq<nat>)
    requires Accepts(env, r) && Balanced(quotas, Capacities(r.cases, AllUsed(r.priors), Unique(r.dates)))
    ensures Settled(Plain(r), AllUsed(r.priors), quotas)
  {
    UniqueIsClean(r.dates);
  }

  /** The holdout has the requested size, new cases only, and no repetition. */
  lemma HoldoutIsNew(env: Env, r: Request, m: Manifest)
    requires Freezes(env, r, m)
    ensures CleanIds(m.holdout) && |m.holdout| == r.total && IdSet(m.holdout) !! AllUsed(r.priors)
    ensures Unique(m.holdout) == m.holdout
  {
    var quotas :| IsManifest(env, r, quotas, m);
    var p, used := Plain(r), AllUsed(r.priors);
    Settle(env, r, quotas);
    ChosenFacts(env, p, used, quotas, |p.dates|);
    assert quotas[..|p.dates|] == quotas;
    forall id | id in m.holdout ensures CleanId(id) && id !in used {
      ChosenClean(env, p, used, quotas, |p.dates|, id);
    }
    CleanStays(m.holdout);
  }

  /** What the manifest marks as used: everything before, and its own holdout. */
  lemma UsedGrows(env: Env, r: Request, m: Manifest)
    requires Freezes(env, r, m)
    ensures Used(m) == AllUsed(r.priors) + HoldoutOf(m)
    ensures DevelopmentOf(m) == IdSet(Developments(r.priors))
  {
    var used := AllUsed(r.priors);
    HoldoutIsNew(env, r, m);
    DevelopmentsUsed(r.priors);
    UniqueKeeps(Developments(r.priors));
    UniqueIsClean(Developments(r.priors));
    CleanStays(m.development);
    forall id | id in used + IdSet(m.holdout) ensures CleanId(id) {
      if id in used {
        AllUsedClean(r.priors, id);
      }
    }
    ListsClean(m.consumed, used + IdSet(m.holdout));
    CleanStays(m.consumed);
  }

  /** Every manifest that is written passes the check the next generation makes of it. */
  lemma ManifestPassesCheck(env: Env, r: Request, m: Manifest)
    requires Freezes(env, r, m)
    ensures PriorOk(m)
  {
    HoldoutIsNew(env, r, m);
    UsedGrows(env, r, m);
    DevelopmentsUsed(r.priors);
    DevelopmentsNotEmpty(r.priors);
    UniqueIsClean(Developments(r.priors));
    CleanStays(m.development);
    UniqueKeeps(Developments(r.priors));
    var id := Developments(r.priors)[0];
    assert id in IdSet(Developments(r.priors));
    assert id in DevelopmentOf(m);
  }

  // ---------------------------------------------------------------- generations

  /** Each generation is frozen from the newest manifest alone. */
  ghost predicate Chain(env: Env, requests: seq<Request>, ms: seq<Manifest>) {
    |ms| == |requests| + 1 && forall k: nat | k < |requests| :: FollowsAt(env, requests, ms, k)
  }

  ghost predicate FollowsAt(env: Env, requests: seq<Request>, ms: seq<Manifest>, k: nat) {
    k < |requests| && k + 1 < |ms| && Succeeds(env, requests[k], ms[k], ms[k + 1])
  }

  ghost predicate Succeeds(env: Env, r: Request, before: Manifest, after: Manifest) {
    r.priors == [before] && Freezes(env, r, after)
  }

  lemma OnePrior(m: Manifest)
    ensures AllUsed([m]) == Used(m) && IdSet(Developments([m])) == DevelopmentOf(m)
  {
    var cs := Contributions([m]);
    assert cs[..0] == [] && cs[0] == ContributionOf(m);
    assert UnionOf(cs[..0]) == {} && ConcatOf(cs[..0]) == [];
    assert ConcatOf(cs) == Unique(m.development);
  }

  /** A generation adds its holdout, disjoint from all that came before, and keeps the development set. */
  lemma Generation(env: Env, r: Request, before: Manifest, after: Manifest)
    requires Succeeds(env, r, before, after)
    ensures Used(after) == Used(before) + HoldoutOf(after)
    ensures HoldoutOf(after) !! Used(before)
    ensures DevelopmentOf(after) == DevelopmentOf(before)
    ensures PriorOk(before) && PriorOk(after)
  {
    OnePrior(before);
    HoldoutIsNew(env, r, after);
    UsedGrows(env, r, after);
    ManifestPassesCheck(env, r, after);
    assert Contributions(r.priors)[0].ok;
  }

  /** A manifest reduced to its sets of identifiers. */
  datatype Sets = Sets(development: set<string>, holdout: set<string>, used: set<string>)

  ghost function SetsOf(m: Manifest): Sets {
    Sets(DevelopmentOf(m), HoldoutOf(m), Used(m))
  }

  ghost predicate Grows(before: Sets, after: Sets) {
    && after.used == before.used + after.holdout && after.holdout !! before.used
    && after.development == before.development
    && before.holdout <= before.used && before.development <= before.used
  }

  ghost predicate GrowsAt(gs: seq<Sets>, k: nat) {
    k + 1 < |gs| && Grows(gs[k], gs[k + 1])
  }

  lemma {:induction false} GrowingStays(gs: seq<Sets>, i: nat, j: nat)
    requires forall k: nat | k + 1 < |gs| :: GrowsAt(gs, k)
    requires i <= j < |gs|
    ensures gs[i].used <= gs[j].used && gs[i].development == gs[j].development
    decreases j
  {
    if i < j {
      GrowingStays(gs, i, j - 1);
      assert GrowsAt(gs, j - 1);
    }
  }

  lemma GrowingApart(gs: seq<Sets>, i: nat, j: nat)
    requires forall k: nat | k + 1 < |gs| :: GrowsAt(gs, k)
    requires i < j < |gs|
    ensures gs[i].holdout !! gs[j].holdout && gs[i].development !! gs[j].holdout
    ensures gs[i].development == gs[j].development
  {
    GrowingStays(gs, i, j - 1);
    assert GrowsAt(gs, i) && GrowsAt(gs, j - 1);
  }

  lemma GenerationGrows(env: Env, r: Request, before: Manifest, after: Manifest)
    requires Succeeds(env, r, before, after)
    ensures Grows(SetsOf(before), SetsOf(after)) && PriorOk(before) && PriorOk(after)
  {
    Generation(env, r, before, after);
  }

  ghost function AllSets(ms: seq<Manifest>): (gs: seq<Sets>)
    ensures |gs| == |ms|
    ensures forall k | 0 <= k < |ms| :: gs[k] == SetsOf(ms[k])
  {
    seq(|ms|, k requires 0 <= k < |ms| => SetsOf(ms[k]))
  }

  lemma GenerationAt(env: Env, requests: seq<Request>, ms: seq<Manifest>, k: nat)
    requires Chain(env, requests, ms) && k + 1 < |ms|
    ensures GrowsAt(AllSets(ms), k) && PriorOk(ms[k]) && PriorOk(ms[k + 1])
  {
    assert FollowsAt(env, requests, ms, k);
    GenerationGrows(env, requests[k], ms[k], ms[k + 1]);
  }

  lemma ChainGrows(env: Env, requests: seq<Request>, ms: seq<Manifest>)
    requires Chain(env, requests, ms)
    ensures forall k: nat | k + 1 < |AllSets(ms)| :: GrowsAt(AllSets(ms), k)
  {
    forall k: nat | k + 1 < |AllSets(ms)| ensures GrowsAt(AllSets(ms), k) {
      GenerationAt(env, requests, ms, k);
    }
  }

  /** Every manifest of a chain passes the check, the first one included. */
  lemma ChainPassesChecks(env: Env, requests: seq<Request>, ms: seq<Manifest>, k: nat)
    requires Chain(env, requests, ms) && |ms| > 1 && k < |ms|
    ensures PriorOk(ms[k])
  {
    GenerationAt(env, requests, ms, if k == 0 then 0 else k - 1);
  }

  /**
   * Over any number of generations, with each one given only the newest manifest, holdouts
   * never overlap each other or the development set, which never changes.
   */
  lemma HoldoutsNeverOverlap(env: Env, requests: seq<Request>, ms: seq<Manifest>, i: nat, j: nat)
    requires Chain(env, requests, ms) && i < j < |ms|
    ensures var early, late := SetsOf(ms[i]), SetsOf(ms[j]);
            && early.holdout !! late.holdout && early.development !! late.holdout
            && early.development == late.development
  {
    ChainGrows(env, requests, ms);
    GrowingApart(AllSets(ms), i, j);
  }
}

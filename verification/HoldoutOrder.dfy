/** The manifest does not depend on the order of the input cases. */
module HoldoutOrder {
  import opened Text
  import opened Sorting
  import opened Quotas
  import opened Holdout
  import opened HoldoutChain

  lemma DistinctSameBag<T>(s: seq<T>, t: seq<T>)
    requires Distinct(s) && Distinct(t) && forall x | x in s :: x in t
    requires forall x | x in t :: x in s
    ensures multiset(s) == multiset(t)
  {
    forall x | x in multiset(s) || x in multiset(t) ensures multiset(s)[x] == multiset(t)[x] {
      CountsOnce(s, x);
      CountsOnce(t, x);
      assert x in s && x in t;
    }
  }

  lemma CandidateMoves(a: seq<Case>, b: seq<Case>, used: set<string>, date: string, id: string)
    requires multiset(a) == multiset(b) && id in CandidatesFor(a, used, date)
    ensures id in CandidatesFor(b, used, date)
  {
    var i := CandidateCase(a, used, date, id);
    InPermutation(a, b, a[i]);
    var j :| 0 <= j < |b| && b[j] == a[i];
    CaseIsCandidate(b, used, date, j);
  }

  lemma CandidatesPermute(a: seq<Case>, b: seq<Case>, used: set<string>, date: string)
    requires multiset(a) == multiset(b) && Distinct(Ids(a)) && Distinct(Ids(b))
    ensures multiset(CandidatesFor(a, used, date)) == multiset(CandidatesFor(b, used, date))
    ensures |CandidatesFor(a, used, date)| == |CandidatesFor(b, used, date)|
  {
    var p, q := CandidatesFor(a, used, date), CandidatesFor(b, used, date);
    CandidatesDistinct(a, used, date);
    CandidatesDistinct(b, used, date);
    forall id | id in p ensures id in q {
      CandidateMoves(a, b, used, date, id);
    }
    forall id | id in q ensures id in p {
      CandidateMoves(b, a, used, date, id);
    }
    DistinctSameBag(p, q);
    assert |p| == |multiset(p)| && |q| == |multiset(q)|;
  }

  lemma RankingSame(env: Env, seed: string, a: seq<Case>, b: seq<Case>, used: set<string>, date: string)
    requires multiset(a) == multiset(b) && Distinct(Ids(a)) && Distinct(Ids(b))
    ensures RankedIds(env, seed, date, CandidatesFor(a, used, date)) ==
            RankedIds(env, seed, date, CandidatesFor(b, used, date))
  {
    CandidatesPermute(a, b, used, date);
    RankOrder(env, seed, date);
    SortIgnoresOrder(RankLeq(env, seed, date), CandidatesFor(a, used, date), CandidatesFor(b, used, date));
  }

  lemma CapacitiesSame(a: seq<Case>, b: seq<Case>, used: set<string>, dates: seq<string>)
    requires multiset(a) == multiset(b) && Distinct(Ids(a)) && Distinct(Ids(b))
    ensures Capacities(a, used, dates) == Capacities(b, used, dates)
  {
    forall i | 0 <= i < |dates| ensures Capacities(a, used, dates)[i] == Capacities(b, used, dates)[i] {
      CandidatesPermute(a, b, used, dates[i]);
    }
  }

  lemma RankingsSame(env: Env, r: Request, s: Request, used: set<string>)
    requires s == r.(cases := s.cases) && multiset(r.cases) == multiset(s.cases)
    requires Distinct(Ids(r.cases)) && Distinct(Ids(s.cases))
    ensures Rankings(env, r, used) == Rankings(env, s, used)
  {
    forall i | 0 <= i < |r.dates| ensures Rankings(env, r, used)[i] == Rankings(env, s, used)[i] {
      RankingSame(env, r.seed, r.cases, s.cases, used, r.dates[i]);
    }
  }

  lemma ListsUnique(a: seq<string>, b: seq<string>, s: set<string>)
    requires Lists(a, s) && Lists(b, s)
    ensures a == b
  {
    forall x | x in a ensures x in b {
      assert x in IdSet(a);
    }
    forall x | x in b ensures x in a {
      assert x in IdSet(b);
    }
    DistinctSameBag(a, b);
    StringOrder();
    SortedUnique(StringLeq, a, b);
  }

  lemma IdsDistinctPermute(a: seq<Case>, b: seq<Case>)
    requires multiset(a) == multiset(b) && Distinct(Ids(a))
    ensures Distinct(Ids(b))
  {
    forall i, j | 0 <= i < j < |a| ensures a[i] != a[j] {
      assert Ids(a)[i] != Ids(a)[j];
    }
    DistinctPermutes(a, b);
    forall i, j | 0 <= i < j < |b| ensures Ids(b)[i] != Ids(b)[j] {
      InPermutation(b, a, b[i]);
      InPermutation(b, a, b[j]);
      var p :| 0 <= p < |a| && a[p] == b[i];
      var q :| 0 <= q < |a| && a[q] == b[j];
      assert p != q;
      assert Ids(a)[p] != Ids(a)[q];
    }
  }

  lemma CasesOkPermute(a: seq<Case>, b: seq<Case>, used: set<string>)
    requires multiset(a) == multiset(b) && CasesOk(a, used)
    ensures CasesOk(b, used)
  {
    IdsDistinctPermute(a, b);
    forall i | 0 <= i < |b| ensures Ids(b)[i] != "" && Placeable(b[i], used) {
      InPermutation(b, a, b[i]);
      var p :| 0 <= p < |a| && a[p] == b[i];
      assert Ids(a)[p] != "" && Placeable(a[p], used);
    }
  }

  lemma AcceptsPermuted(env: Env, r: Request, s: Request)
    requires s == r.(cases := s.cases) && multiset(r.cases) == multiset(s.cases) && Accepts(env, r)
    ensures Accepts(env, s)
  {
    var used := AllUsed(r.priors);
    CasesOkPermute(r.cases, s.cases, used);
    CapacitiesSame(r.cases, s.cases, used, Unique(r.dates));
  }

  /** Permuting the input cases changes neither whether a manifest is written nor which. */
  lemma OrderDoesNotMatter(env: Env, r: Request, s: Request, m: Manifest, n: Manifest)
    requires s == r.(cases := s.cases) && multiset(r.cases) == multiset(s.cases)
    ensures Accepts(env, r) <==> Accepts(env, s)
    ensures Freezes(env, r, m) && Freezes(env, s, n) ==> m == n
  {
    if Accepts(env, r) {
      AcceptsPermuted(env, r, s);
    }
    if Accepts(env, s) {
      AcceptsPermuted(env, s, r);
    }
    if Freezes(env, r, m) && Freezes(env, s, n) {
      SameManifest(env, r, s, m, n);
    }
  }

  lemma SameManifest(env: Env, r: Request, s: Request, m: Manifest, n: Manifest)
    requires s == r.(cases := s.cases) && multiset(r.cases) == multiset(s.cases)
    requires Freezes(env, r, m) && Freezes(env, s, n)
    ensures m == n
  {
    var used := AllUsed(r.priors);
    var quotas :| IsManifest(env, r, quotas, m);
    var others :| IsManifest(env, s, others, n);
    CapacitiesSame(r.cases, s.cases, used, Unique(r.dates));
    BalancedUnique(quotas, others, Capacities(r.cases, used, Unique(r.dates)));
    RankingsSame(env, Plain(r), Plain(s), used);
    ListsUnique(m.consumed, n.consumed, used + IdSet(m.holdout));
  }
}

/** Freezing a manifest, step by step. */
module HoldoutFreeze {
  import opened Text
  import opened Sorting
  import opened Quotas
  import opened Holdout
  import opened HoldoutChain

  datatype FreezeError =
    | TotalNotPositive
    | DatesNotUnique
    | NotADate
    | NoPriorManifest
    | BadPriorManifest
    | BadCaseId
    | BadTimestamps
    | BadQuotas(error: QuotaError)
    | NotDisjoint

  datatype FreezeResult = Frozen(manifest: Manifest) | Failed(error: FreezeError)

  method UniqueNonEmpty(values: seq<string>) returns (out: seq<string>)
    ensures out == Unique(values)
  {
    out := [];
    var seen: set<string> := {};
    for i := 0 to |values|
      invariant out == Unique(values[..i])
      invariant forall v :: v in seen <==> v in out
    {
      var normalized := Strip(values[i]);
      assert values[..i + 1][..i] == values[..i];
      if normalized != "" && normalized !in seen {
        seen := seen + {normalized};
        out := out + [normalized];
      }
    }
    assert values[..|values|] == values;
  }

  method ToSet(ids: seq<string>) returns (s: set<string>)
    ensures s == IdSet(ids)
  {
    s := set id | id in ids;
  }

  /** One prior manifest: its development ids and everything it marks as used. */
  method ReadPrior(prior: Manifest) returns (ok: bool, development: seq<string>, used: set<string>)
    ensures ContributionOf(prior) == Contribution(ok, development, used)
  {
    development := UniqueNonEmpty(prior.development);
    var holdout := UniqueNonEmpty(prior.holdout);
    var consumed := UniqueNonEmpty(prior.consumed);
    var ds := ToSet(development);
    var hs := ToSet(holdout);
    var cs := ToSet(consumed);
    ok := development != [] && holdout != [] && ds !! hs;
    used := ds + hs + cs;
  }

  /** The development ids and used ids of the prior manifests. */
  method ReadPriors(priors: seq<Manifest>) returns (ok: bool, development: seq<string>, used: set<string>)
    ensures ok <==> AllOk(Contributions(priors))
    ensures ok ==> development == Developments(priors) && used == AllUsed(priors)
  {
    development, used := [], {};
    hide Unique, PriorOk, Used;
    ghost var cs := Contributions(priors);
    for k := 0 to |priors|
      invariant AllOk(cs[..k]) && development == ConcatOf(cs[..k]) && used == UnionOf(cs[..k])
    {
      var fine, d, u := ReadPrior(priors[k]);
      if !fine {
        assert !cs[k].ok;
        return false, [], {};
      }
      assert cs[..k + 1][..k] == cs[..k];
      development, used := development + d, used + u;
    }
    assert cs[..|priors|] == cs;
    ok := true;
  }

  /** Each date's candidates among the first `n` cases. */
  ghost predicate Collected(
      candidates: map<string, seq<string>>, cases: seq<Case>, used: set<string>, dates: seq<string>)
  {
    && candidates.Keys == (set d | d in dates)
    && forall d | d in candidates :: candidates[d] == CandidatesFor(cases, used, d)
  }

  method CollectCandidates(cases: seq<Case>, used: set<string>, dates: seq<string>)
    returns (ok: bool, error: FreezeError, candidates: map<string, seq<string>>)
    ensures ok <==> CasesOk(cases, used)
    ensures !ok ==> error == BadCaseId || error == BadTimestamps
    ensures ok ==> Collected(candidates, cases, used, dates)
  {
    error := BadCaseId;
    candidates := map d | d in dates :: [];
    var seen: set<string> := {};
    for k := 0 to |cases|
      invariant CasesOk(cases[..k], used) && seen == IdSet(Ids(cases[..k]))
      invariant Collected(candidates, cases[..k], used, dates)
    {
      var c, id := cases[k], Strip(cases[k].uuid);
      IdsSnoc(cases, k);
      if id == "" || id in seen {
        BadCaseFails(cases, used, k);
        return false, BadCaseId, map[];
      }
      if id !in used && c.localDate.Malformed? {
        BadCaseFails(cases, used, k);
        return false, BadTimestamps, map[];
      }
      CasesOkSnoc(cases, used, k);
      seen := seen + {id};
      assert cases[..k + 1][..k] == cases[..k];
      if id !in used && c.localDate.date in candidates {
        var date := c.localDate.date;
        candidates := candidates[date := candidates[date] + [id]];
      }
    }
    assert cases[..|cases|] == cases;
    ok := true;
  }

  lemma IdsSnoc(cases: seq<Case>, k: nat)
    requires k < |cases|
    ensures Ids(cases[..k + 1]) == Ids(cases[..k]) + [Strip(cases[k].uuid)]
  {
  }

  lemma CasesOkSnoc(cases: seq<Case>, used: set<string>, k: nat)
    requires k < |cases| && CasesOk(cases[..k], used)
    requires Strip(cases[k].uuid) != "" && Strip(cases[k].uuid) !in Ids(cases[..k]) && Placeable(cases[k], used)
    ensures CasesOk(cases[..k + 1], used)
  {
    IdsSnoc(cases, k);
    DistinctSnoc(Ids(cases[..k]), Strip(cases[k].uuid));
    var now, before := cases[..k + 1], cases[..k];
    forall i | 0 <= i < |now| ensures Placeable(now[i], used) {
      if i < k {
        assert now[i] == before[i];
      }
    }
  }

  /** One bad case spoils the input. */
  lemma BadCaseFails(cases: seq<Case>, used: set<string>, k: nat)
    requires k < |cases|
    requires Strip(cases[k].uuid) == "" || Strip(cases[k].uuid) in Ids(cases[..k]) || !Placeable(cases[k], used)
    ensures !CasesOk(cases, used)
  {
    var id := Strip(cases[k].uuid);
    assert Ids(cases)[k] == id;
    if id in Ids(cases[..k]) {
      var i :| 0 <= i < k && Ids(cases[..k])[i] == id;
      assert Ids(cases)[i] == id;
    }
  }

  /** The ids of a set in lexicographic order. */
  method SortedIds(ids: set<string>) returns (sorted: seq<string>)
    ensures Lists(sorted, ids)
  {
    var rest, listed := ids, [];
    while rest != {}
      invariant Distinct(listed) && IdSet(listed) !! rest && IdSet(listed) + rest == ids
    {
      var id :| id in rest;
      assert IdSet(listed + [id]) == IdSet(listed) + {id};
      DistinctSnoc(listed, id);
      rest, listed := rest - {id}, listed + [id];
    }
    sorted := SortBy(StringLeq, listed);
    StringOrder();
    SortBySorted(StringLeq, listed);
    SortByPermutes(StringLeq, listed);
    DistinctPermutes(listed, sorted);
    SameIdSet(listed, sorted);
  }

  lemma SameIdSet(a: seq<string>, b: seq<string>)
    requires multiset(a) == multiset(b)
    ensures IdSet(a) == IdSet(b)
  {
    forall id ensures id in IdSet(a) <==> id in IdSet(b) {
      assert id in a <==> id in multiset(a);
      assert id in b <==> id in multiset(b);
    }
  }

  /** The first ids of each date's ranking, as many as its quota. */
  method SelectCases(
      env: Env, ghost r: Request, ghost used: set<string>, seed: string, dates: seq<string>,
      candidates: map<string, seq<string>>, quotas: seq<nat>)
    returns (selected: seq<string>)
    requires r.seed == seed && r.dates == dates && |quotas| == |dates|
    requires Collected(candidates, r.cases, used, dates)
    ensures selected == Pick(Rankings(env, r, used), quotas, |dates|)
  {
    selected := [];
    ghost var rankings := Rankings(env, r, used);
    for i := 0 to |dates|
      invariant selected == Pick(rankings, quotas, i)
    {
      assert dates[i] in candidates;
      var ranked := RankedIds(env, seed, dates[i], candidates[dates[i]]);
      assert rankings[i] == ranked;
      selected := selected + First(ranked, quotas[i]);
    }
  }

  method CapacitiesOf(
      ghost cases: seq<Case>, ghost used: set<string>, dates: seq<string>, candidates: map<string, seq<string>>)
    returns (capacities: seq<nat>)
    requires Collected(candidates, cases, used, dates)
    ensures capacities == Capacities(cases, used, dates)
  {
    capacities := seq(|dates|, i requires 0 <= i < |dates| && dates[i] in candidates => |candidates[dates[i]]|);
  }

  method CheckDates(env: Env, dates: seq<string>) returns (ok: bool)
    ensures ok <==> forall i | 0 <= i < |dates| :: env.validDate(dates[i])
  {
    for i := 0 to |dates|
      invariant forall j | 0 <= j < i :: env.validDate(dates[j])
    {
      if !env.validDate(dates[i]) {
        return false;
      }
    }
    ok := true;
  }

  /** Quotas, choice and the sorted list of everything used, for inputs that passed the checks. */
  method WriteManifest(env: Env, r: Request, dates: seq<string>, development: seq<string>, used: set<string>,
                       candidates: map<string, seq<string>>)
    returns (result: FreezeResult)
    requires dates == Unique(r.dates) && used == AllUsed(r.priors) && development == Developments(r.priors)
    requires r.total > 0 && Collected(candidates, r.cases, used, dates) && CasesOk(r.cases, used)
    ensures result.Frozen? <==> Sum(Capacities(r.cases, used, dates)) >= r.total
    ensures result.Frozen? ==> exists quotas :: IsManifest(env, r, quotas, result.manifest)
    ensures result.Failed? ==> result.error == BadQuotas(TooFewCases(Sum(Capacities(r.cases, used, dates))))
  {
    var capacities := CapacitiesOf(r.cases, used, dates, candidates);
    var quotas := BalancedQuotas(capacities, r.total);
    if quotas.Refused? {
      return Failed(BadQuotas(quotas.error));
    }
    var selected := SelectCases(env, Plain(r), used, r.seed, dates, candidates, quotas.value);
    var chosen := ToSet(selected);
    SelectionIsNew(env, r, used, quotas.value, selected);
    if chosen * used != {} || |selected| != |chosen| {
      return Failed(NotDisjoint);
    }
    var unique := UniqueNonEmpty(development);
    var consumed := SortedIds(used + chosen);
    result := Frozen(Manifest(unique, selected, consumed));
    assert IsManifest(env, r, quotas.value, result.manifest);
  }

  lemma {:induction false} DistinctSetSize(ids: seq<string>)
    requires Distinct(ids)
    ensures |IdSet(ids)| == |ids|
  {
    if ids != [] {
      var n := |ids| - 1;
      DistinctSetSize(ids[..n]);
      assert ids == ids[..n] + [ids[n]];
      assert IdSet(ids) == IdSet(ids[..n]) + {ids[n]};
    }
  }

  lemma SelectionIsNew(env: Env, r: Request, used: set<string>, quotas: seq<nat>, selected: seq<string>)
    requires CasesOk(r.cases, used) && Balanced(quotas, Capacities(r.cases, used, Unique(r.dates)))
    requires selected == Pick(Rankings(env, Plain(r), used), quotas, |Unique(r.dates)|)
    ensures IdSet(selected) * used == {} && |IdSet(selected)| == |selected|
  {
    var p := Plain(r);
    UniqueIsClean(r.dates);
    assert Settled(p, used, quotas);
    ChosenFacts(env, p, used, quotas, |p.dates|);
    DistinctSetSize(selected);
    forall id | id in selected ensures id !in used {
      ChosenClean(env, p, used, quotas, |p.dates|, id);
    }
  }

  /**
   * Freezes a manifest. It succeeds exactly on accepted requests, and the last check, that
   * the selection is new and without repetition, never fails.
   */
  method FreezeManifest(env: Env, r: Request) returns (result: FreezeResult)
    ensures result.Frozen? <==> Accepts(env, r)
    ensures result.Frozen? ==> Freezes(env, r, result.manifest)
    ensures result.Failed? ==> result.error != NotDisjoint && result.error != BadQuotas(UnableToAllocate)
  {
    if r.total <= 0 {
      return Failed(TotalNotPositive);
    }
    var dates := UniqueNonEmpty(r.dates);
    if |dates| != |r.dates| {
      return Failed(DatesNotUnique);
    }
    var valid := CheckDates(env, dates);
    if !valid {
      return Failed(NotADate);
    }
    if r.priors == [] {
      return Failed(NoPriorManifest);
    }
    var ok, development, used := ReadPriors(r.priors);
    if !ok {
      return Failed(BadPriorManifest);
    }
    var fine, error, candidates := CollectCandidates(r.cases, used, dates);
    if !fine {
      return Failed(error);
    }
    result := WriteManifest(env, r, dates, development, used, candidates);
  }
}

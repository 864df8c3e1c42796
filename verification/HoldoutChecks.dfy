/** When a manifest is written, in terms of the identifiers, dates and cases as they are given. */
module HoldoutChecks {
  import opened Text
  import opened Sorting
  import opened Quotas
  import opened Holdout
  import opened HoldoutChain
  import opened HoldoutChoice

  // ---------------------------------------------------------------- lists of identifiers

  function StripAll(values: seq<string>): (r: seq<string>)
    ensures |r| == |values|
    ensures forall i | 0 <= i < |values| :: r[i] == Strip(values[i])
  {
    seq(|values|, i requires 0 <= i < |values| => Strip(values[i]))
  }

  lemma StripSnoc(values: seq<string>)
    requires values != []
    ensures StripAll(values) == StripAll(values[..|values| - 1]) + [Strip(values[|values| - 1])]
  {
  }

  /** The identifier, stripped and not blank, is one of the values. */
  predicate Names(values: seq<string>, id: string) {
    id != "" && id in StripAll(values)
  }

  lemma {:induction false} UniqueNames(values: seq<string>, id: string)
    ensures id in Unique(values) <==> Names(values, id)
  {
    if values != [] {
      UniqueNames(values[..|values| - 1], id);
      StripSnoc(values);
    }
  }

  ghost predicate NoneBlankNoneTwice(values: seq<string>) {
    "" !in StripAll(values) && Distinct(StripAll(values))
  }

  lemma DistinctEnd(front: seq<string>, last: string)
    ensures Distinct(front + [last]) <==> Distinct(front) && last !in front
  {
    var s := front + [last];
    assert forall i | 0 <= i < |front| :: s[i] == front[i];
    assert s[|front|] == last;
  }

  lemma {:induction false} UniqueNotLonger(values: seq<string>)
    ensures |Unique(values)| <= |values|
    ensures |Unique(values)| == |values| <==> NoneBlankNoneTwice(values)
    ensures NoneBlankNoneTwice(values) ==> Unique(values) == StripAll(values)
  {
    if values != [] {
      var n := |values| - 1;
      var front, last := values[..n], Strip(values[n]);
      UniqueNotLonger(front);
      UniqueNames(front, last);
      StripSnoc(values);
      DistinctEnd(StripAll(front), last);
      assert "" in StripAll(values) <==> "" in StripAll(front) || last == "";
    }
  }

  // ---------------------------------------------------------------- a prior manifest

  ghost predicate SomeName(values: seq<string>) {
    exists id: string :: Names(values, id)
  }

  /** It has development and holdout cases, and no case is both. */
  lemma PriorOkExactly(m: Manifest)
    ensures PriorOk(m) <==>
            && SomeName(m.development) && SomeName(m.holdout)
            && forall id: string :: !(Names(m.development, id) && Names(m.holdout, id))
  {
    SomeNameExactly(m.development);
    SomeNameExactly(m.holdout);
    forall id: string
      ensures id in DevelopmentOf(m) <==> Names(m.development, id)
      ensures id in HoldoutOf(m) <==> Names(m.holdout, id)
    {
      UniqueNames(m.development, id);
      UniqueNames(m.holdout, id);
    }
    if DevelopmentOf(m) !! HoldoutOf(m) {
      forall id: string ensures !(Names(m.development, id) && Names(m.holdout, id)) {
        assert !(id in DevelopmentOf(m) && id in HoldoutOf(m));
      }
    }
  }

  lemma SomeNameExactly(values: seq<string>)
    ensures Unique(values) != [] <==> SomeName(values)
  {
    if Unique(values) != [] {
      UniqueNames(values, Unique(values)[0]);
    }
    if id: string :| Names(values, id) {
      UniqueNames(values, id);
    }
  }

  // ---------------------------------------------------------------- the cases

  /** The unused cases of the requested dates. */
  ghost function DrawableIds(r: Request, dates: seq<string>): set<string> {
    if dates == [] then {} else DrawableIds(r, dates[..|dates| - 1]) + IdSet(CandidatesFor(r.cases, AllUsed(r.priors), dates[|dates| - 1]))
  }

  lemma {:induction false} DrawableIdsExactly(r: Request, dates: seq<string>, id: string)
    ensures id in DrawableIds(r, dates) <==> exists k | 0 <= k < |dates| :: Drawable(r, dates[k], id)
  {
    if dates != [] {
      var n := |dates| - 1;
      DrawableIdsExactly(r, dates[..n], id);
      DrawableIsCandidate(r, dates[n], id);
      if id in DrawableIds(r, dates[..n]) {
        var k :| 0 <= k < n && Drawable(r, dates[..n][k], id);
        assert Drawable(r, dates[k], id);
      }
      if k :| 0 <= k < |dates| && Drawable(r, dates[k], id) {
        assert k < n ==> Drawable(r, dates[..n][k], id);
      }
    }
  }

  lemma {:induction false} CapacityIsSize(r: Request, dates: seq<string>)
    requires Distinct(Ids(r.cases)) && Distinct(dates)
    ensures Sum(Capacities(r.cases, AllUsed(r.priors), dates)) == |DrawableIds(r, dates)|
  {
    var used := AllUsed(r.priors);
    if dates == [] {
      assert Capacities(r.cases, used, dates) == [];
    } else {
      var n := |dates| - 1;
      var front, here := dates[..n], CandidatesFor(r.cases, used, dates[n]);
      CapacityIsSize(r, front);
      CandidatesDistinct(r.cases, used, dates[n]);
      DistinctSize(here);
      assert Capacities(r.cases, used, dates)[..n] == Capacities(r.cases, used, front);
      forall id | id in DrawableIds(r, front) ensures id !in here {
        NotOnOther(r, dates, id);
      }
      assert DrawableIds(r, front) !! IdSet(here);
    }
  }

  lemma NotOnOther(r: Request, dates: seq<string>, id: string)
    requires dates != [] && Distinct(Ids(r.cases)) && Distinct(dates) && id in DrawableIds(r, dates[..|dates| - 1])
    ensures id !in CandidatesFor(r.cases, AllUsed(r.priors), dates[|dates| - 1])
  {
    var n := |dates| - 1;
    DrawableIdsExactly(r, dates[..n], id);
    var k :| 0 <= k < n && Drawable(r, dates[..n][k], id);
    DrawableIsCandidate(r, dates[k], id);
    OneDateEach(r.cases, AllUsed(r.priors), dates[k], dates[n], id);
  }

  // ---------------------------------------------------------------- all checks

  ghost predicate PriorsGiven(priors: seq<Manifest>) {
    priors != [] && forall p | 0 <= p < |priors| ::
      && SomeName(priors[p].development) && SomeName(priors[p].holdout)
      && forall id: string :: !(Names(priors[p].development, id) && Names(priors[p].holdout, id))
  }

  ghost predicate DatesGiven(env: Env, dates: seq<string>) {
    NoneBlankNoneTwice(dates) && forall i | 0 <= i < |dates| :: env.validDate(StripAll(dates)[i])
  }

  ghost predicate CasesGiven(r: Request) {
    && "" !in Ids(r.cases) && Distinct(Ids(r.cases))
    && forall i | 0 <= i < |r.cases| :: r.cases[i].localDate.Malformed? ==> Ids(r.cases)[i] in AllUsed(r.priors)
  }

  lemma CasesAccepted(r: Request)
    ensures CasesOk(r.cases, AllUsed(r.priors)) <==> CasesGiven(r)
  {
    if CasesGiven(r) {
      forall i | 0 <= i < |r.cases| ensures Placeable(r.cases[i], AllUsed(r.priors)) {
        assert Ids(r.cases)[i] == Strip(r.cases[i].uuid);
      }
    }
    if CasesOk(r.cases, AllUsed(r.priors)) {
      forall i | 0 <= i < |r.cases| && r.cases[i].localDate.Malformed? ensures Ids(r.cases)[i] in AllUsed(r.priors) {
        assert Placeable(r.cases[i], AllUsed(r.priors));
      }
    }
  }

  /**
   * A manifest is written exactly for a positive number of cases, dates that are given, valid and
   * different, priors that each have development and holdout cases apart, cases with different
   * identifiers and a date unless used, and enough unused cases on the dates.
   */
  lemma AcceptsExactly(env: Env, r: Request)
    ensures Accepts(env, r) <==>
            && r.total > 0 && DatesGiven(env, r.dates) && PriorsGiven(r.priors) && CasesGiven(r)
            && |DrawableIds(r, Unique(r.dates))| >= r.total
  {
    UniqueNotLonger(r.dates);
    UniqueIsClean(r.dates);
    CasesAccepted(r);
    PriorsAccepted(r.priors);
    if Distinct(Ids(r.cases)) {
      CapacityIsSize(r, Unique(r.dates));
    }
  }

  lemma PriorsAccepted(priors: seq<Manifest>)
    ensures priors != [] && AllOk(Contributions(priors)) <==> PriorsGiven(priors)
  {
    var cs := Contributions(priors);
    forall p | 0 <= p < |priors|
      ensures cs[p].ok <==>
              && SomeName(priors[p].development) && SomeName(priors[p].holdout)
              && forall id: string :: !(Names(priors[p].development, id) && Names(priors[p].holdout, id))
    {
      PriorOkExactly(priors[p]);
    }
  }
}

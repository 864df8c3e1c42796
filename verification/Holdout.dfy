/**
 * Frozen holdout manifests (scripts/aiops/freeze_recorded_holdout.py): each generation
 * draws new cases and consumes those of every generation before.
 */
module Holdout {
  import opened Text
  import opened Sorting
  import opened Quotas

  datatype Manifest = Manifest(development: seq<string>, holdout: seq<string>, consumed: seq<string>)

  /** An input case; `localDate` is the date of its description, none if that is malformed. */
  datatype Case = Case(uuid: string, localDate: LocalDate)

  datatype LocalDate = OnDate(date: string) | Malformed

  /** Which strings are dates, and the digest of seed, date and case. */
  datatype Env = Env(validDate: string -> bool, digest: (string, string, string) -> string)

  datatype Request = Request(
    cases: seq<Case>, priors: seq<Manifest>, dates: seq<string>, total: int, seed: string)

  // ---------------------------------------------------------------- lists of identifiers

  function Strip(value: string): string {
    Trim(value, Python)
  }

  function AddUnique(out: seq<string>, value: string): seq<string> {
    if value == "" || value in out then out else out + [value]
  }

  /** First occurrences of the stripped values that are not empty. */
  function Unique(values: seq<string>): seq<string> {
    if values == [] then [] else AddUnique(Unique(values[..|values| - 1]), Strip(values[|values| - 1]))
  }

  predicate CleanId(id: string) {
    id != "" && Strip(id) == id
  }

  ghost predicate CleanIds(ids: seq<string>) {
    Distinct(ids) && forall i | 0 <= i < |ids| :: CleanId(ids[i])
  }

  lemma StripClean(value: string)
    ensures Strip(value) == "" || CleanId(Strip(value))
  {
    TrimFixes(value, Python);
    TrimFixes(Strip(value), Python);
  }

  lemma {:induction false} UniqueIsClean(values: seq<string>)
    ensures CleanIds(Unique(values))
  {
    if values != [] {
      UniqueIsClean(values[..|values| - 1]);
      StripClean(values[|values| - 1]);
    }
  }

  /** Clean lists are the fixed points. */
  lemma {:induction false} CleanStays(ids: seq<string>)
    requires CleanIds(ids)
    ensures Unique(ids) == ids
  {
    if ids != [] {
      var n := |ids| - 1;
      CleanStays(ids[..n]);
      assert forall i | 0 <= i < n :: ids[..n][i] == ids[i] != ids[n];
      assert ids == ids[..n] + [ids[n]];
    }
  }

  ghost function IdSet(ids: seq<string>): set<string> {
    set id | id in ids
  }

  ghost function DevelopmentOf(m: Manifest): set<string> {
    IdSet(Unique(m.development))
  }

  ghost function HoldoutOf(m: Manifest): set<string> {
    IdSet(Unique(m.holdout))
  }

  /** What a manifest marks as used. */
  ghost function Used(m: Manifest): set<string> {
    DevelopmentOf(m) + HoldoutOf(m) + IdSet(Unique(m.consumed))
  }

  /** The check every prior manifest must pass. */
  ghost predicate PriorOk(m: Manifest) {
    Unique(m.development) != [] && Unique(m.holdout) != [] && DevelopmentOf(m) !! HoldoutOf(m)
  }

  /** What one prior manifest adds: whether it passes, its development ids, and all it marks as used. */
  datatype Contribution = Contribution(ok: bool, development: seq<string>, used: set<string>)

  ghost function ContributionOf(m: Manifest): Contribution {
    Contribution(PriorOk(m), Unique(m.development), Used(m))
  }

  ghost function Contributions(priors: seq<Manifest>): (cs: seq<Contribution>)
    ensures |cs| == |priors|
    ensures forall i | 0 <= i < |cs| :: cs[i] == ContributionOf(priors[i])
  {
    seq(|priors|, i requires 0 <= i < |priors| => ContributionOf(priors[i]))
  }

  function UnionOf(cs: seq<Contribution>): set<string> {
    if cs == [] then {} else UnionOf(cs[..|cs| - 1]) + cs[|cs| - 1].used
  }

  function ConcatOf(cs: seq<Contribution>): seq<string> {
    if cs == [] then [] else ConcatOf(cs[..|cs| - 1]) + cs[|cs| - 1].development
  }

  ghost function AllUsed(priors: seq<Manifest>): set<string> {
    UnionOf(Contributions(priors))
  }

  ghost function Developments(priors: seq<Manifest>): seq<string> {
    ConcatOf(Contributions(priors))
  }

  ghost predicate AllOk(cs: seq<Contribution>) {
    forall i | 0 <= i < |cs| :: cs[i].ok
  }

  // ---------------------------------------------------------------- candidates

  function Ids(cases: seq<Case>): (ids: seq<string>)
    ensures |ids| == |cases|
    ensures forall i | 0 <= i < |cases| :: ids[i] == Strip(cases[i].uuid)
  {
    seq(|cases|, i requires 0 <= i < |cases| => Strip(cases[i].uuid))
  }

  ghost predicate Placeable(c: Case, used: set<string>) {
    Strip(c.uuid) in used || c.localDate.OnDate?
  }

  /** Ids present and different, and a date for each case not yet used. */
  ghost predicate CasesOk(cases: seq<Case>, used: set<string>) {
    && Distinct(Ids(cases)) && "" !in Ids(cases)
    && forall i | 0 <= i < |cases| :: Placeable(cases[i], used)
  }

  ghost predicate Fits(c: Case, used: set<string>, date: string) {
    Strip(c.uuid) !in used && c.localDate == OnDate(date)
  }

  /** The unused ids of a date, in input order. */
  ghost function CandidatesFor(cases: seq<Case>, used: set<string>, date: string): seq<string> {
    if cases == [] then []
    else
      var n := |cases| - 1;
      CandidatesFor(cases[..n], used, date) + if Fits(cases[n], used, date) then [Strip(cases[n].uuid)] else []
  }

  ghost function Capacities(cases: seq<Case>, used: set<string>, dates: seq<string>): (c: seq<nat>)
    ensures |c| == |dates|
    ensures forall i | 0 <= i < |dates| :: c[i] == |CandidatesFor(cases, used, dates[i])|
  {
    seq(|dates|, i requires 0 <= i < |dates| => |CandidatesFor(cases, used, dates[i])|)
  }

  /** By digest, then by id. */
  function RankLeq(env: Env, seed: string, date: string): (string, string) -> bool {
    (a, b) =>
      var x, y := env.digest(seed, date, a), env.digest(seed, date, b);
      if x == y then StringLeq(a, b) else StringLeq(x, y)
  }

  lemma RankOrder(env: Env, seed: string, date: string)
    ensures Ordering(RankLeq(env, seed, date)) && Antisymmetric(RankLeq(env, seed, date))
  {
    StringOrder();
  }

  function RankedIds(env: Env, seed: string, date: string, ids: seq<string>): (r: seq<string>)
    ensures |r| == |ids|
  {
    SortBy(RankLeq(env, seed, date), ids)
  }

  /** The ranked candidates of each date. */
  ghost function Rankings(env: Env, r: Request, used: set<string>): (rs: seq<seq<string>>)
    ensures |rs| == |r.dates|
    ensures forall i | 0 <= i < |rs| ::
              rs[i] == RankedIds(env, r.seed, r.dates[i], CandidatesFor(r.cases, used, r.dates[i]))
  {
    seq(|r.dates|, i requires 0 <= i < |r.dates| =>
      RankedIds(env, r.seed, r.dates[i], CandidatesFor(r.cases, used, r.dates[i])))
  }

  function First(ids: seq<string>, n: nat): seq<string> {
    if n <= |ids| then ids[..n] else ids
  }

  /** The first ids of each of the first `n` rankings, as many as the quotas say. */
  function Pick(rankings: seq<seq<string>>, quotas: seq<nat>, n: nat): seq<string>
    requires n <= |rankings| && n <= |quotas|
  {
    if n == 0 then [] else Pick(rankings, quotas, n - 1) + First(rankings[n - 1], quotas[n - 1])
  }

  // ---------------------------------------------------------------- freezing

  /** When a manifest is written; `r.dates` are compared with their stripped form. */
  ghost predicate Accepts(env: Env, r: Request) {
    && r.total > 0
    && |Unique(r.dates)| == |r.dates|
    && (forall i | 0 <= i < |Unique(r.dates)| :: env.validDate(Unique(r.dates)[i]))
    && r.priors != [] && AllOk(Contributions(r.priors))
    && CasesOk(r.cases, AllUsed(r.priors))
    && Sum(Capacities(r.cases, AllUsed(r.priors), Unique(r.dates))) >= r.total
  }

  /** `ids` is the set in lexicographic order. */
  ghost predicate Lists(ids: seq<string>, s: set<string>) {
    Sorted(StringLeq, ids) && Distinct(ids) && IdSet(ids) == s
  }

  ghost predicate IsManifest(env: Env, r: Request, quotas: seq<nat>, m: Manifest) {
    var used := AllUsed(r.priors);
    var plain := r.(dates := Unique(r.dates));
    && Balanced(quotas, Capacities(r.cases, used, plain.dates)) && Sum(quotas) == r.total
    && m.development == Unique(Developments(r.priors))
    && m.holdout == Pick(Rankings(env, plain, used), quotas, |plain.dates|)
    && Lists(m.consumed, used + IdSet(m.holdout))
  }

  /** The manifest written for an accepted request. */
  ghost predicate Freezes(env: Env, r: Request, m: Manifest) {
    Accepts(env, r) && exists quotas :: IsManifest(env, r, quotas, m)
  }
}

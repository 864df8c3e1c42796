/** Conversations with the funnel: rounds of clarification, and requests under changing limits. */
module FunnelRuns {
  import opened Text
  import opened Funnel
  import opened FunnelCache

  // ---------------------------------------------------------------- clarification rounds

  datatype Exchange = Exchange(call: Call, result: RouteResult)

  /** Round of the latest clarification received; zero before the first. */
  function LastRound(talk: seq<Exchange>): int {
    if talk == [] then 0
    else
      var n := |talk| - 1;
      match talk[n].result.clarification
      case Some(c) => c.round
      case None => LastRound(talk[..n])
  }

  function Asked(talk: seq<Exchange>): nat {
    if talk == [] then 0
    else
      var n := |talk| - 1;
      Asked(talk[..n]) + if talk[n].result.clarification.Some? then 1 else 0
  }

  /** Every request carries the round of the clarification received before it. */
  ghost predicate Echoes(talk: seq<Exchange>) {
    talk == [] ||
    var n := |talk| - 1;
    Echoes(talk[..n]) && Round(talk[n].call.input) == LastRound(talk[..n]) + 1
  }

  lemma GuardAsksNothing(call: Call)
    ensures Guard(call.input.query, call.strategy, call.cfg).Some? ==>
              Guard(call.input.query, call.strategy, call.cfg).value.clarification.None?
  {
  }

  predicate AsksInRound(r: RouteResult, call: Call) {
    r.clarification.Some? ==>
      var c := r.clarification.value;
      && r.decision == Confirm && c.missingSlots == r.missingSlots
      && c.round == Round(call.input) <= call.cfg.maxClarifications
  }

  lemma ClarifyAsks(call: Call, output: Output, reason: Reason)
    requires output.candidates != []
    ensures AsksInRound(Clarify(call.input, output, call.cfg, reason, call.now), call)
  {
  }

  lemma RouteAsksNothing(call: Call, output: Output, c: Candidate)
    ensures Route(c, output, call.diagnosis, call.strategy, call.cfg).clarification.None?
  {
  }

  lemma JudgedAsks(call: Call, output: Output, sel: Selection)
    requires output.candidates != []
    ensures AsksInRound(Judged(call, output, sel), call)
  {
    var c := Effective(sel, call.cfg);
    var r := Route(c, output, call.diagnosis, call.strategy, call.cfg);
    RouteAsksNothing(call, output, c);
    ClarifyAsks(call, output, Context(sel.reason));
    ClarifyAsks(call, output, r.reason);
  }

  lemma FinishedAsks(call: Call, output: Output)
    requires output.candidates != []
    ensures AsksInRound(Finished(call, output), call)
  {
    var answered := WithAnswer(output, call.input.answer);
    ClarifyAsks(call, output, StateChanged);
    JudgedAsks(call, answered, SelectionFor(call, answered));
  }

  ghost predicate AllAskInRound(talk: seq<Exchange>) {
    forall i | 0 <= i < |talk| :: AsksInRound(talk[i].result, talk[i].call)
  }

  /** A client that echoes rounds is asked at most as often as configured, and the rounds count the questions. */
  lemma {:induction false} EchoesBounded(talk: seq<Exchange>, max: nat)
    requires Echoes(talk) && AllAskInRound(talk)
    requires forall i | 0 <= i < |talk| :: talk[i].call.cfg.maxClarifications <= max
    ensures Asked(talk) == LastRound(talk) <= max
  {
    if talk != [] {
      var n := |talk| - 1;
      EchoesBounded(talk[..n], max);
      assert AsksInRound(talk[n].result, talk[n].call);
    }
  }

  // ---------------------------------------------------------------- limits that change under one version

  function Plain(topK: int): Config {
    Config("v1", topK, 0.75, 0.15, 900, 1, 300, 256, {}, "", [], [], [])
  }

  function PlainRequest(topK: int, query: string, now: int): Request {
    Request(Call(Plain(topK), Input(query, None, None), false, "auto", now), "")
  }

  ghost predicate SecondTransparent(env: Env, j: int, k: int, p: string, q: string, now: int, later: int) {
    LastResult(env, [PlainRequest(j, p, now), PlainRequest(k, q, later)]) ==
    Uncached(PlainRequest(k, q, later).call, ReplyTo(env, q))
  }

  /** Raising or lowering the limit between two requests never shows. */
  ghost predicate ChangeTransparent(j: int, k: int) {
    forall env: Env, p: string, q: string, now: int, later: int | ClassifiesByKey(env) ::
      SecondTransparent(env, j, k, p, q, now, later)
  }

  lemma SameLimitTransparent(env: Env, j: int, k: int, p: string, q: string, now: int, later: int)
    requires ClassifiesByKey(env) && Kept(j) == Kept(k)
    ensures SecondTransparent(env, j, k, p, q, now, later)
  {
    CacheTransparent(env, v => j, [PlainRequest(j, p, now), PlainRequest(k, q, later)]);
  }

  lemma JudgedCandidates(call: Call, output: Output, sel: Selection)
    requires output.candidates != []
    ensures Judged(call, output, sel).candidates == output.candidates
  {
  }

  lemma ClarifyCandidates(call: Call, output: Output)
    requires output.candidates != []
    ensures Clarify(call.input, output, call.cfg, StateChanged, call.now).candidates == output.candidates
  {
  }

  lemma AnswerCandidates(output: Output, answer: Option<Answer>)
    ensures WithAnswer(output, answer).candidates == output.candidates
  {
  }

  /** Every answer lists the candidates it was made from. */
  lemma FinishedCandidates(call: Call, output: Output)
    requires output.candidates != []
    ensures Finished(call, output).candidates == output.candidates
  {
    var answered := WithAnswer(output, call.input.answer);
    AnswerCandidates(output, call.input.answer);
    ClarifyCandidates(call, output);
    JudgedCandidates(call, answered, SelectionFor(call, answered));
  }

  function Copies(n: nat): (cs: seq<Candidate>)
    ensures |cs| == n
    ensures forall i | 0 <= i < n :: cs[i] == Candidate(KnowledgeQa, 1.0, [])
  {
    seq(n, i => Candidate(KnowledgeQa, 1.0, []))
  }

  function Crowd(n: nat): RawOutput {
    RawOutput("", "", 0.0, Copies(n), [], [], Low)
  }

  /** A classifier that always answers with `n` candidates. */
  function CrowdEnv(n: nat): Env {
    Env(s => "", s => Decoded(Crowd(n)))
  }

  lemma AppendColon(v: string, w: string)
    requires v + ":" == w + ":"
    ensures v == w
  {
    assert v == (v + ":")[..|v + ":"| - 1];
    assert w == (w + ":")[..|w + ":"| - 1];
  }

  lemma CrowdByKey(n: nat)
    ensures ClassifiesByKey(CrowdEnv(n))
  {
    var env := CrowdEnv(n);
    forall p: string, v: string, q: string, w: string | Key(env, p, v) == Key(env, q, w)
      ensures v == w && ReplyTo(env, p) == ReplyTo(env, q)
    {
      assert Key(env, p, v) == v + ":" && Key(env, q, w) == w + ":";
      AppendColon(v, w);
    }
  }

  lemma CrowdKept(n: nat, topK: int)
    requires n > 0
    ensures CheckRaw(Crowd(n), topK).Usable? && CheckRaw(Crowd(n), topK).output.risk == Low
    ensures |CheckRaw(Crowd(n), topK).output.candidates| == if n > Kept(topK) then Kept(topK) else n
  {
    assert Copies(n)[0] == Candidate(KnowledgeQa, 1.0, []);
  }

  lemma PlainGuard(topK: int)
    ensures Guard("", "auto", Plain(topK)).None?
  {
  }

  lemma OneRequest(env: Env, request: Request)
    ensures CacheAfter(env, []) == map[]
    ensures CacheAfter(env, [request]) == Cached(env, request.call, map[], request.victim).cache
  {
    assert [request][..0] == [];
  }

  lemma EmptyDropped(key: string, cfg: Config, now: int)
    ensures Dropped(map[], key, cfg, now) == map[]
    ensures Lookup(map[], key, cfg, now) == None
  {
    var empty: Cache := map[];
    assert empty - {key} == empty;
  }

  lemma MissIs(env: Env, call: Call, stored: Output)
    requires Classify(ReplyTo(env, call.input.query), call.cfg.topK) == Usable(stored)
    ensures Missed(env, call, map[], "").cache ==
            Stored(map[], Key(env, call.input.query, call.cfg.policyVersion), stored, call.cfg, call.now, "")
  {
  }

  lemma StoredFinds(key: string, output: Output, cfg: Config, now: int)
    requires CacheOn(cfg) && output.risk != High
    ensures var cache := Stored(map[], key, output, cfg, now, ""); key in cache && cache[key] == Entry(output, now + cfg.cacheTtl)
  {
  }

  lemma MissStores(env: Env, call: Call, stored: Output)
    requires Guard(call.input.query, call.strategy, call.cfg).None? && CacheOn(call.cfg)
    requires Classify(ReplyTo(env, call.input.query), call.cfg.topK) == Usable(stored) && stored.risk != High
    ensures var key := Key(env, call.input.query, call.cfg.policyVersion);
            var cache := Cached(env, call, map[], "").cache;
            key in cache && cache[key] == Entry(stored, call.now + call.cfg.cacheTtl)
  {
    var key := Key(env, call.input.query, call.cfg.policyVersion);
    CachedCases(env, call, map[], "");
    EmptyDropped(key, call.cfg, call.now);
    MissIs(env, call, stored);
    StoredFinds(key, stored, call.cfg, call.now);
  }

  lemma FirstStored(env: Env, j: int, stored: Output)
    requires Classify(ReplyTo(env, ""), j) == Usable(stored) && stored.risk == Low
    ensures var cache := CacheAfter(env, [PlainRequest(j, "", 0)]);
            var key := Key(env, "", "v1");
            key in cache && cache[key] == Entry(stored, 300)
  {
    OneRequest(env, PlainRequest(j, "", 0));
    PlainGuard(j);
    MissStores(env, PlainRequest(j, "", 0).call, stored);
  }

  lemma SecondServed(env: Env, j: int, k: int, stored: Output)
    requires Classify(ReplyTo(env, ""), j) == Usable(stored) && stored.risk == Low
    ensures LastResult(env, [PlainRequest(j, "", 0), PlainRequest(k, "", 0)]) ==
            FinishClassified(PlainRequest(k, "", 0).call, Usable(stored))
  {
    var first, second := PlainRequest(j, "", 0), PlainRequest(k, "", 0);
    assert [first, second][..1] == [first];
    FirstStored(env, j, stored);
    PlainGuard(k);
    CachedCases(env, second.call, CacheAfter(env, [first]), "");
  }

  lemma UncachedPlain(k: int, reply: Reply)
    ensures var call := PlainRequest(k, "", 0).call; Uncached(call, reply) == FinishClassified(call, Classify(reply, k))
  {
    PlainGuard(k);
  }

  lemma DifferenceShows(env: Env, j: int, k: int, stored: Output, direct: Output)
    requires Classify(ReplyTo(env, ""), j) == Usable(stored) && stored.risk == Low
    requires Classify(ReplyTo(env, ""), k) == Usable(direct) && |stored.candidates| != |direct.candidates|
    ensures !SecondTransparent(env, j, k, "", "", 0, 0)
  {
    var call := PlainRequest(k, "", 0).call;
    SecondServed(env, j, k, stored);
    UncachedPlain(k, ReplyTo(env, ""));
    FinishedCandidates(call, stored);
    FinishedCandidates(call, direct);
  }

  lemma DifferentLimitShows(j: int, k: int)
    requires Kept(j) != Kept(k)
    ensures !ChangeTransparent(j, k)
  {
    var n := if Kept(j) > Kept(k) then Kept(j) else Kept(k);
    CrowdByKey(n);
    CrowdKept(n, j);
    CrowdKept(n, k);
    DifferenceShows(CrowdEnv(n), j, k, CheckRaw(Crowd(n), j).output, CheckRaw(Crowd(n), k).output);
  }

  /** Cached answers survive a change of the limit under one policy version exactly when it keeps as many. */
  lemma LimitChangeExactly(j: int, k: int)
    ensures ChangeTransparent(j, k) <==> Kept(j) == Kept(k)
  {
    if Kept(j) == Kept(k) {
      forall env: Env, p: string, q: string, now: int, later: int | ClassifiesByKey(env)
        ensures SecondTransparent(env, j, k, p, q, now, later)
      {
        SameLimitTransparent(env, j, k, p, q, now, later);
      }
    } else {
      DifferentLimitShows(j, k);
    }
  }
}

/** The candidate cache of the intent funnel, and runs of the funnel with it. */
module FunnelCache {
  import opened Text
  import opened Funnel
  import opened Sets

  datatype Entry = Entry(output: Output, expiresAt: int)

  type Cache = map<string, Entry>

  /** The digest of a normalised query, and the classifier. */
  datatype Env = Env(digest: string -> string, classify: string -> Reply)

  function NormalQuery(query: string): string {
    Lower(Join(Fields(query), " "))
  }

  function Key(env: Env, query: string, version: string): string {
    version + ":" + env.digest(NormalQuery(query))
  }

  function ReplyTo(env: Env, query: string): Reply {
    env.classify(TrimSpace(query))
  }

  predicate CacheOn(cfg: Config) {
    cfg.cacheTtl > 0 && cfg.cacheMax > 0
  }

  predicate Live(cache: Cache, key: string, now: int) {
    key in cache && cache[key].expiresAt > now
  }

  function Lookup(cache: Cache, key: string, cfg: Config, now: int): Option<Output> {
    if CacheOn(cfg) && Live(cache, key, now) then Some(cache[key].output) else None
  }

  /** A look-up drops the entry it finds expired. */
  function Dropped(cache: Cache, key: string, cfg: Config, now: int): Cache {
    if CacheOn(cfg) && !Live(cache, key, now) then cache - {key} else cache
  }

  predicate NeedsRoom(cache: Cache, key: string, cfg: Config) {
    key !in cache && |cache| >= cfg.cacheMax
  }

  function WithRoom(cache: Cache, key: string, cfg: Config, victim: string): Cache {
    if NeedsRoom(cache, key, cfg) then cache - {victim} else cache
  }

  predicate Evicts(cache: Cache, key: string, output: Output, cfg: Config) {
    CacheOn(cfg) && output.risk != High && NeedsRoom(cache, key, cfg)
  }

  /** Storing into a full cache first removes one entry, the `victim`, whichever the map yields. */
  function Stored(cache: Cache, key: string, output: Output, cfg: Config, now: int, victim: string): Cache {
    if !CacheOn(cfg) || output.risk == High then cache
    else WithRoom(cache, key, cfg, victim)[key := Entry(output, now + cfg.cacheTtl)]
  }

  datatype Outcome = Outcome(result: RouteResult, cache: Cache)

  function Missed(env: Env, call: Call, cache: Cache, victim: string): Outcome {
    var classified := Classify(ReplyTo(env, call.input.query), call.cfg.topK);
    match classified
    case Unusable(reason) => Outcome(ConfirmRoute(reason), cache)
    case Usable(output) =>
      Outcome(Finished(call, output),
        Stored(cache, Key(env, call.input.query, call.cfg.policyVersion), output, call.cfg, call.now, victim))
  }

  /** The funnel with its cache. */
  function Cached(env: Env, call: Call, cache: Cache, victim: string): Outcome
    requires HoldsCandidates(cache)
  {
    var key := Key(env, call.input.query, call.cfg.policyVersion);
    match Guard(call.input.query, call.strategy, call.cfg)
    case Some(r) => Outcome(r, cache)
    case None =>
      match Lookup(cache, key, call.cfg, call.now)
      case Some(output) => Outcome(Finished(call, output), cache)
      case None => Missed(env, call, Dropped(cache, key, call.cfg, call.now), victim)
  }

  predicate HasCandidates(key: string, output: Output) {
    output.candidates != []
  }

  ghost predicate HoldsCandidates(cache: Cache) {
    Every(HasCandidates, cache)
  }

  // ---------------------------------------------------------------- transparency

  /** Requests whose keys coincide get the same reply from the classifier. */
  ghost predicate ClassifiesByKey(env: Env) {
    forall p: string, v: string, q: string, w: string | Key(env, p, v) == Key(env, q, w) ::
      v == w && ReplyTo(env, p) == ReplyTo(env, q)
  }

  /** What the classifier says for every request with this key, the limit being a function of the version. */
  ghost predicate Answers(env: Env, topKOf: string -> int, key: string, output: Output) {
    forall q: string, v: string | Key(env, q, v) == key :: Classify(ReplyTo(env, q), topKOf(v)) == Usable(output)
  }

  ghost predicate Every(p: (string, Output) -> bool, cache: Cache) {
    forall key | key in cache :: p(key, cache[key].output)
  }

  lemma EveryStored(
      p: (string, Output) -> bool, cache: Cache, key: string, output: Output, cfg: Config, now: int, victim: string)
    requires Every(p, cache) && p(key, output)
    ensures Every(p, Stored(cache, key, output, cfg, now, victim))
  {
  }

  lemma EveryDropped(p: (string, Output) -> bool, cache: Cache, key: string, cfg: Config, now: int)
    requires Every(p, cache)
    ensures Every(p, Dropped(cache, key, cfg, now))
  {
  }

  ghost function Answering(env: Env, topKOf: string -> int): (string, Output) -> bool {
    (key, output) => Answers(env, topKOf, key, output)
  }

  ghost predicate Faithful(env: Env, topKOf: string -> int, cache: Cache) {
    Every(Answering(env, topKOf), cache)
  }

  ghost predicate Agrees(topKOf: string -> int, cfg: Config) {
    Kept(cfg.topK) == Kept(topKOf(cfg.policyVersion))
  }

  lemma ReplyAnswers(env: Env, topKOf: string -> int, query: string, version: string, output: Output)
    requires ClassifiesByKey(env) && Classify(ReplyTo(env, query), topKOf(version)) == Usable(output)
    ensures Answers(env, topKOf, Key(env, query, version), output)
  {
    forall q: string, v: string | Key(env, q, v) == Key(env, query, version)
      ensures Classify(ReplyTo(env, q), topKOf(v)) == Usable(output)
    {
      assert v == version && ReplyTo(env, q) == ReplyTo(env, query);
    }
  }

  lemma SameKept(reply: Reply, j: int, k: int)
    requires Kept(j) == Kept(k)
    ensures Classify(reply, j) == Classify(reply, k)
  {
  }

  lemma AnswersHas(env: Env, topKOf: string -> int, query: string, version: string, output: Output)
    requires Answers(env, topKOf, Key(env, query, version), output)
    ensures Classify(ReplyTo(env, query), topKOf(version)) == Usable(output)
  {
  }

  lemma MissedTransparent(env: Env, topKOf: string -> int, call: Call, cache: Cache, victim: string)
    requires ClassifiesByKey(env) && Faithful(env, topKOf, cache) && Agrees(topKOf, call.cfg)
    ensures Missed(env, call, cache, victim).result ==
            FinishClassified(call, Classify(ReplyTo(env, call.input.query), call.cfg.topK))
    ensures Faithful(env, topKOf, Missed(env, call, cache, victim).cache)
  {
    var query, version := call.input.query, call.cfg.policyVersion;
    var classified := Classify(ReplyTo(env, query), call.cfg.topK);
    SameKept(ReplyTo(env, query), call.cfg.topK, topKOf(version));
    if classified.Usable? {
      ReplyAnswers(env, topKOf, query, version, classified.output);
      EveryStored(Answering(env, topKOf), cache, Key(env, query, version), classified.output, call.cfg,
        call.now, victim);
    }
  }

  lemma LookupAnswers(env: Env, topKOf: string -> int, call: Call, cache: Cache, output: Output)
    requires Faithful(env, topKOf, cache) && Agrees(topKOf, call.cfg)
    requires Lookup(cache, Key(env, call.input.query, call.cfg.policyVersion), call.cfg, call.now) == Some(output)
    ensures Classify(ReplyTo(env, call.input.query), call.cfg.topK) == Usable(output)
  {
    SameKept(ReplyTo(env, call.input.query), call.cfg.topK, topKOf(call.cfg.policyVersion));
    AnswersHas(env, topKOf, call.input.query, call.cfg.policyVersion, output);
  }

  /** The three ways a request goes through the cache. */
  lemma CachedCases(env: Env, call: Call, cache: Cache, victim: string)
    requires HoldsCandidates(cache)
    ensures var key := Key(env, call.input.query, call.cfg.policyVersion);
            var found := Lookup(cache, key, call.cfg, call.now);
            match Guard(call.input.query, call.strategy, call.cfg)
            case Some(r) => Cached(env, call, cache, victim) == Outcome(r, cache)
            case None =>
              Cached(env, call, cache, victim) ==
              if found.Some? then Outcome(FinishClassified(call, Usable(found.value)), cache)
              else Missed(env, call, Dropped(cache, key, call.cfg, call.now), victim)
  {
  }

  /** A request together with the entry the map yields first, should one have to go. */
  datatype Request = Request(call: Call, victim: string)

  /** The victim is an entry of the cache whenever one has to go. */
  ghost predicate VictimFits(env: Env, request: Request, cache: Cache) {
    var call := request.call;
    var key := Key(env, call.input.query, call.cfg.policyVersion);
    var dropped := Dropped(cache, key, call.cfg, call.now);
    var classified := Classify(ReplyTo(env, call.input.query), call.cfg.topK);
    var stores :=
      && Guard(call.input.query, call.strategy, call.cfg).None? && Lookup(cache, key, call.cfg, call.now).None?
      && classified.Usable?;
    stores && Evicts(dropped, key, classified.output, call.cfg) ==> request.victim in dropped
  }

  /** The second layer: the candidates from the cache or the classifier, or the reason there are none. */
  ghost predicate SecondLayer(
      env: Env, call: Call, before: Cache, after: Cache, output: Option<Output>, reason: Reason, victim: string) {
    var key := Key(env, call.input.query, call.cfg.policyVersion);
    var cached := Lookup(before, key, call.cfg, call.now);
    var dropped := Dropped(before, key, call.cfg, call.now);
    var classified := Classify(ReplyTo(env, call.input.query), call.cfg.topK);
    if cached.Some? then output == cached && after == before
    else if output.None? then classified == Unusable(reason) && after == dropped
    else
      && classified == Usable(output.value)
      && after == Stored(dropped, key, output.value, call.cfg, call.now, victim)
      && (Evicts(dropped, key, output.value, call.cfg) ==> victim in dropped)
  }

  lemma SecondLayerIsCached(
      env: Env, call: Call, before: Cache, after: Cache, output: Option<Output>, reason: Reason, victim: string)
    requires HoldsCandidates(before) && Guard(call.input.query, call.strategy, call.cfg).None?
    requires SecondLayer(env, call, before, after, output, reason, victim)
    requires output.Some? ==> output.value.candidates != []
    ensures Cached(env, call, before, victim) ==
            Outcome(if output.Some? then Finished(call, output.value) else ConfirmRoute(reason), after)
    ensures VictimFits(env, Request(call, victim), before)
  {
    CachedCases(env, call, before, victim);
  }

  /** One request is answered as without the cache, and the cache stays faithful. */
  lemma StepTransparent(env: Env, topKOf: string -> int, call: Call, cache: Cache, victim: string)
    requires HoldsCandidates(cache) && ClassifiesByKey(env) && Faithful(env, topKOf, cache) && Agrees(topKOf, call.cfg)
    ensures Cached(env, call, cache, victim).result == Uncached(call, ReplyTo(env, call.input.query))
    ensures Faithful(env, topKOf, Cached(env, call, cache, victim).cache)
  {
    var key := Key(env, call.input.query, call.cfg.policyVersion);
    var found := Lookup(cache, key, call.cfg, call.now);
    CachedCases(env, call, cache, victim);
    if found.Some? {
      LookupAnswers(env, topKOf, call, cache, found.value);
    } else {
      EveryDropped(Answering(env, topKOf), cache, key, call.cfg, call.now);
      MissedTransparent(env, topKOf, call, Dropped(cache, key, call.cfg, call.now), victim);
    }
  }

  lemma MissedCandidates(env: Env, call: Call, cache: Cache, victim: string)
    requires HoldsCandidates(cache)
    ensures HoldsCandidates(Missed(env, call, cache, victim).cache)
  {
    var classified := Classify(ReplyTo(env, call.input.query), call.cfg.topK);
    if classified.Usable? {
      EveryStored(HasCandidates, cache, Key(env, call.input.query, call.cfg.policyVersion), classified.output, call.cfg,
        call.now, victim);
    }
  }

  lemma CandidatesKept(env: Env, call: Call, cache: Cache, victim: string)
    requires HoldsCandidates(cache)
    ensures HoldsCandidates(Cached(env, call, cache, victim).cache)
  {
    var key := Key(env, call.input.query, call.cfg.policyVersion);
    CachedCases(env, call, cache, victim);
    EveryDropped(HasCandidates, cache, key, call.cfg, call.now);
    MissedCandidates(env, call, Dropped(cache, key, call.cfg, call.now), victim);
  }

  /** Storing drops no other entry but the victim, and that only for a new key in a full cache. */
  lemma StoredKeepsOthers(cache: Cache, key: string, output: Output, cfg: Config, now: int, victim: string, other: string)
    requires cfg.cacheTtl > 0 && cfg.cacheMax > 0 && output.risk != High && other != key
    ensures var stored := Stored(cache, key, output, cfg, now, victim);
            && (other in stored <==> other in cache && !(other == victim && key !in cache && |cache| >= cfg.cacheMax))
            && (other in stored ==> stored[other] == cache[other])
            && key in stored && stored[key] == Entry(output, now + cfg.cacheTtl)
  {
  }

  lemma StoredSize(cache: Cache, key: string, output: Output, cfg: Config, now: int, victim: string, max: nat)
    requires |cache| <= max && cfg.cacheMax <= max
    requires Evicts(cache, key, output, cfg) ==> victim in cache
    ensures |Stored(cache, key, output, cfg, now, victim)| <= max
  {
    if CacheOn(cfg) && output.risk != High {
      var room := WithRoom(cache, key, cfg, victim);
      if NeedsRoom(cache, key, cfg) {
        assert room.Keys == cache.Keys - {victim};
      }
      assert room[key := Entry(output, now + cfg.cacheTtl)].Keys == room.Keys + {key};
    }
  }

  lemma DroppedSize(cache: Cache, key: string, cfg: Config, now: int)
    ensures |Dropped(cache, key, cfg, now)| <= |cache|
  {
    assert (cache - {key}).Keys <= cache.Keys;
    SubsetSize((cache - {key}).Keys, cache.Keys);
  }

  // ---------------------------------------------------------------- runs

  function CacheAfter(env: Env, requests: seq<Request>): (cache: Cache)
    ensures HoldsCandidates(cache)
  {
    if requests == [] then map[]
    else
      var n := |requests| - 1;
      var before := CacheAfter(env, requests[..n]);
      CandidatesKept(env, requests[n].call, before, requests[n].victim);
      Cached(env, requests[n].call, before, requests[n].victim).cache
  }

  /** The last answer of a run. */
  function LastResult(env: Env, requests: seq<Request>): RouteResult
    requires requests != []
  {
    var n := |requests| - 1;
    Cached(env, requests[n].call, CacheAfter(env, requests[..n]), requests[n].victim).result
  }

  ghost predicate AllAgree(topKOf: string -> int, requests: seq<Request>) {
    forall i | 0 <= i < |requests| :: Agrees(topKOf, requests[i].call.cfg)
  }

  lemma {:induction false} RunFaithful(env: Env, topKOf: string -> int, requests: seq<Request>)
    requires ClassifiesByKey(env) && AllAgree(topKOf, requests)
    ensures Faithful(env, topKOf, CacheAfter(env, requests))
  {
    if requests != [] {
      var n := |requests| - 1;
      RunFaithful(env, topKOf, requests[..n]);
      StepTransparent(env, topKOf, requests[n].call, CacheAfter(env, requests[..n]), requests[n].victim);
    }
  }

  /**
   * In every run, whatever expires or is evicted, the last request (hence each request) is
   * answered as if there were no cache.
   */
  lemma CacheTransparent(env: Env, topKOf: string -> int, requests: seq<Request>)
    requires requests != [] && ClassifiesByKey(env) && AllAgree(topKOf, requests)
    ensures var call := requests[|requests| - 1].call;
            LastResult(env, requests) == Uncached(call, ReplyTo(env, call.input.query))
  {
    var n := |requests| - 1;
    RunFaithful(env, topKOf, requests[..n]);
    StepTransparent(env, topKOf, requests[n].call, CacheAfter(env, requests[..n]), requests[n].victim);
  }

  ghost predicate VictimsFit(env: Env, requests: seq<Request>) {
    requests == [] ||
    var n := |requests| - 1;
    VictimsFit(env, requests[..n]) && VictimFits(env, requests[n], CacheAfter(env, requests[..n]))
  }

  lemma StepSize(env: Env, call: Call, cache: Cache, victim: string, max: nat)
    requires HoldsCandidates(cache) && VictimFits(env, Request(call, victim), cache)
    requires |cache| <= max && call.cfg.cacheMax <= max
    ensures |Cached(env, call, cache, victim).cache| <= max
  {
    var key := Key(env, call.input.query, call.cfg.policyVersion);
    var dropped := Dropped(cache, key, call.cfg, call.now);
    CachedCases(env, call, cache, victim);
    DroppedSize(cache, key, call.cfg, call.now);
    var classified := Classify(ReplyTo(env, call.input.query), call.cfg.topK);
    if Lookup(cache, key, call.cfg, call.now).None? && classified.Usable? &&
       Guard(call.input.query, call.strategy, call.cfg).None? {
      StoredSize(dropped, key, classified.output, call.cfg, call.now, victim, max);
    }
  }

  /** The cache never holds more than the largest configured number of entries. */
  lemma {:induction false} CacheBounded(env: Env, requests: seq<Request>, max: nat)
    requires VictimsFit(env, requests)
    requires forall i | 0 <= i < |requests| :: requests[i].call.cfg.cacheMax <= max
    ensures |CacheAfter(env, requests)| <= max
  {
    if requests != [] {
      var n := |requests| - 1;
      CacheBounded(env, requests[..n], max);
      StepSize(env, requests[n].call, CacheAfter(env, requests[..n]), requests[n].victim, max);
    }
  }
}

/** The route cache of the plain router (internal/app/agent_router.go), in the automatic mode. */
module RouteCache {
  import opened Text
  import opened Funnel
  import opened FunnelCache
  import opened Keywords
  import opened Sets

  datatype Origin = FromKeyword | FromModel | FromCache | FromFallback

  datatype Route = Route(decision: Decision, strategy: string, confidence: real, degraded: bool, origin: Origin)

  /** A checked reply of the classifier. */
  datatype Flash = NoFlash | Flash(incident: bool, strategy: string, confidence: real)

  datatype Settings = Settings(
    threshold: real, keywords: seq<string>, allowed: set<string>, defaultStrategy: string, ttl: int, max: int)

  /** One request: the query, the strategy asked for, the fingerprint of the routing context. */
  datatype Ask = Ask(query: string, strategy: string, fingerprint: string)

  /** What the key is made of; digests are taken to be injective. */
  type RouteKey = (string, string, string)

  function KeyOf(ask: Ask): RouteKey {
    (ask.strategy, ask.fingerprint, NormalQuery(ask.query))
  }

  const REFUSED := Route(Confirm, "", 0.0, true, FromFallback)

  /** The answer without the cache. */
  function Answered(s: Settings, ask: Ask, flash: Flash): Route {
    if MatchesRule(ask.query, s.keywords) then
      var chosen := ConcreteStrategy(ask.strategy, s.defaultStrategy);
      if chosen in s.allowed then Route(Incident, chosen, 1.0, false, FromKeyword) else REFUSED
    else if flash.NoFlash? then REFUSED
    else if flash.confidence < s.threshold then REFUSED.(confidence := flash.confidence)
    else if !flash.incident then Route(Chat, "", flash.confidence, false, FromModel)
    else
      var chosen := ConcreteStrategy(ask.strategy, flash.strategy);
      if chosen in s.allowed then Route(Incident, chosen, flash.confidence, false, FromModel) else REFUSED
  }

  /** A reply sure enough to be used. */
  predicate Sure(s: Settings, flash: Flash) {
    flash.Flash? && s.threshold <= flash.confidence
  }

  /** When a request is answered by chat, when by a diagnosis and with which strategy, and that all
      else is refused. */
  lemma AnsweredExactly(s: Settings, ask: Ask, flash: Flash)
    ensures var r, rule := Answered(s, ask, flash), MatchesRule(ask.query, s.keywords);
      var strategy :=
        if ask.strategy != AUTO then ask.strategy else if rule then s.defaultStrategy else if flash.Flash? then flash.strategy else "";
      && (r.decision == Chat <==> !rule && Sure(s, flash) && !flash.incident)
      && (r.decision == Incident <==> strategy in s.allowed && (rule || (Sure(s, flash) && flash.incident)))
      && r.strategy == (if r.decision == Incident then strategy else "")
      && (r.degraded <==> r.decision == Confirm)
      && r.origin == (if r.decision == Confirm then FromFallback else if rule then FromKeyword else FromModel)
      && (r.decision != Confirm ==> r.confidence == if rule then 1.0 else flash.confidence)
      && (r.decision == Confirm ==>
            r.confidence == if !rule && flash.Flash? && !Sure(s, flash) then flash.confidence else 0.0)
  {
  }

  datatype StoredRoute = StoredRoute(route: Route, expiresAt: int)

  type Routes = map<RouteKey, StoredRoute>

  predicate RouteCacheOn(s: Settings) {
    s.ttl > 0 && s.max > 0
  }

  function Found(s: Settings, routes: Routes, key: RouteKey, now: int): Option<Route> {
    if RouteCacheOn(s) && key in routes && routes[key].expiresAt > now
    then Some(routes[key].route.(origin := FromCache)) else None
  }

  function WithoutStale(s: Settings, routes: Routes, key: RouteKey, now: int): Routes {
    if RouteCacheOn(s) && key in routes && routes[key].expiresAt <= now then routes - {key} else routes
  }

  function Unexpired(routes: Routes, now: int): Routes {
    map key | key in routes && routes[key].expiresAt > now :: routes[key]
  }

  predicate Cacheable(s: Settings, route: Route) {
    RouteCacheOn(s) && route.decision != Confirm && !route.degraded
  }

  function WithPlace(live: Routes, key: RouteKey, max: int, victim: RouteKey): Routes {
    if key !in live && |live| >= max then live - {victim} else live
  }

  /** Storing drops everything expired and, if the cache is still full, some entry. */
  function Remembered(s: Settings, routes: Routes, key: RouteKey, route: Route, now: int, victim: RouteKey): Routes {
    if !Cacheable(s, route) then routes
    else WithPlace(Unexpired(routes, now), key, s.max, victim)[key := StoredRoute(route, now + s.ttl)]
  }

  /** The classifier, asked with the trimmed query. */
  type Classifier = string -> Flash

  ghost predicate ByNormalForm(classify: Classifier) {
    forall p: string, q: string | NormalQuery(p) == NormalQuery(q) :: classify(TrimSpace(p)) == classify(TrimSpace(q))
  }

  datatype RouteRequest = RouteRequest(ask: Ask, now: int, victim: RouteKey)

  datatype Turn = Turn(route: Route, routes: Routes)

  function Decide(s: Settings, classify: Classifier, r: RouteRequest, routes: Routes): Turn {
    var key := KeyOf(r.ask);
    match Found(s, routes, key, r.now)
    case Some(route) => Turn(route, routes)
    case None =>
      var route := Answered(s, r.ask, classify(TrimSpace(r.ask.query)));
      Turn(route, Remembered(s, WithoutStale(s, routes, key, r.now), key, route, r.now, r.victim))
  }

  function RoutesAfter(s: Settings, classify: Classifier, requests: seq<RouteRequest>): Routes {
    if requests == [] then map[]
    else
      var n := |requests| - 1;
      Decide(s, classify, requests[n], RoutesAfter(s, classify, requests[..n])).routes
  }

  function LastRoute(s: Settings, classify: Classifier, requests: seq<RouteRequest>): Route
    requires requests != []
  {
    var n := |requests| - 1;
    Decide(s, classify, requests[n], RoutesAfter(s, classify, requests[..n])).route
  }

  /** Equal but for where they came from. */
  predicate SameRoute(a: Route, b: Route) {
    a.(origin := b.origin) == b
  }

  // ---------------------------------------------------------------- transparency

  ghost predicate Serves(s: Settings, classify: Classifier, key: RouteKey, route: Route) {
    forall ask: Ask | KeyOf(ask) == key :: SameRoute(route, Answered(s, ask, classify(TrimSpace(ask.query))))
  }

  ghost predicate Faithful(s: Settings, classify: Classifier, routes: Routes) {
    forall key | key in routes :: Serves(s, classify, key, routes[key].route)
  }

  lemma SameKeySameAnswer(s: Settings, classify: Classifier, a: Ask, b: Ask)
    requires Loaded(s.keywords) && AllCovered(s.keywords) && ByNormalForm(classify) && KeyOf(a) == KeyOf(b)
    ensures Answered(s, a, classify(TrimSpace(a.query))) == Answered(s, b, classify(TrimSpace(b.query)))
  {
    CoveredIgnoresSpacing(s.keywords, a.query, b.query);
  }

  lemma AnswerServes(s: Settings, classify: Classifier, ask: Ask)
    requires Loaded(s.keywords) && AllCovered(s.keywords) && ByNormalForm(classify)
    ensures Serves(s, classify, KeyOf(ask), Answered(s, ask, classify(TrimSpace(ask.query))))
  {
    forall other: Ask | KeyOf(other) == KeyOf(ask)
      ensures SameRoute(Answered(s, ask, classify(TrimSpace(ask.query))), Answered(s, other, classify(TrimSpace(other.query))))
    {
      SameKeySameAnswer(s, classify, ask, other);
    }
  }

  lemma RememberedFaithful(
      s: Settings, classify: Classifier, routes: Routes, key: RouteKey, route: Route, now: int, victim: RouteKey)
    requires Faithful(s, classify, routes) && Serves(s, classify, key, route)
    ensures Faithful(s, classify, Remembered(s, routes, key, route, now, victim))
  {
  }

  lemma WithoutStaleFaithful(s: Settings, classify: Classifier, routes: Routes, key: RouteKey, now: int)
    requires Faithful(s, classify, routes)
    ensures Faithful(s, classify, WithoutStale(s, routes, key, now))
  {
  }

  /** One request is answered as without the cache but for the origin, and the cache stays faithful. */
  lemma TurnTransparent(s: Settings, classify: Classifier, r: RouteRequest, routes: Routes)
    requires Loaded(s.keywords) && AllCovered(s.keywords) && ByNormalForm(classify) && Faithful(s, classify, routes)
    ensures SameRoute(Decide(s, classify, r, routes).route, Answered(s, r.ask, classify(TrimSpace(r.ask.query))))
    ensures Faithful(s, classify, Decide(s, classify, r, routes).routes)
  {
    var key := KeyOf(r.ask);
    var route := Answered(s, r.ask, classify(TrimSpace(r.ask.query)));
    if Found(s, routes, key, r.now).Some? {
      assert Serves(s, classify, key, routes[key].route);
    } else {
      AnswerServes(s, classify, r.ask);
      WithoutStaleFaithful(s, classify, routes, key, r.now);
      RememberedFaithful(s, classify, WithoutStale(s, routes, key, r.now), key, route, r.now, r.victim);
    }
  }

  lemma {:induction false} RunFaithful(s: Settings, classify: Classifier, requests: seq<RouteRequest>)
    requires Loaded(s.keywords) && AllCovered(s.keywords) && ByNormalForm(classify)
    ensures Faithful(s, classify, RoutesAfter(s, classify, requests))
  {
    if requests != [] {
      var n := |requests| - 1;
      RunFaithful(s, classify, requests[..n]);
      TurnTransparent(s, classify, requests[n], RoutesAfter(s, classify, requests[..n]));
    }
  }

  /** The cache never shows: every run ends with the answer the classifier and the rules give. */
  ghost predicate Transparent(s: Settings) {
    forall classify: Classifier, requests: seq<RouteRequest> | requests != [] && ByNormalForm(classify) ::
      LastTransparent(s, classify, requests)
  }

  ghost predicate LastTransparent(s: Settings, classify: Classifier, requests: seq<RouteRequest>)
    requires requests != []
  {
    var ask := requests[|requests| - 1].ask;
    SameRoute(LastRoute(s, classify, requests), Answered(s, ask, classify(TrimSpace(ask.query))))
  }

  lemma CoveredTransparent(s: Settings, classify: Classifier, requests: seq<RouteRequest>)
    requires Loaded(s.keywords) && AllCovered(s.keywords) && ByNormalForm(classify) && requests != []
    ensures LastTransparent(s, classify, requests)
  {
    var n := |requests| - 1;
    RunFaithful(s, classify, requests[..n]);
    TurnTransparent(s, classify, requests[n], RoutesAfter(s, classify, requests[..n]));
  }

  // ---------------------------------------------------------------- where it shows

  const CHATTY: Classifier := query => Flash(false, "", 1.0)

  function AskFor(query: string): Ask {
    Ask(query, AUTO, "none")
  }

  function RequestFor(query: string): RouteRequest {
    RouteRequest(AskFor(query), 0, ("", "", ""))
  }

  lemma OneTurn(s: Settings, r: RouteRequest)
    ensures RoutesAfter(s, CHATTY, [r]) == Decide(s, CHATTY, r, map[]).routes
  {
    assert [r][..0] == [];
  }

  /** A query no rule matches is answered by the classifier, and the answer kept. */
  lemma ChatKept(s: Settings, query: string)
    requires RouteCacheOn(s) && s.threshold <= 1.0 && !MatchesRule(query, s.keywords)
    ensures var routes := RoutesAfter(s, CHATTY, [RequestFor(query)]);
            var key := KeyOf(AskFor(query));
            key in routes && routes[key] == StoredRoute(Route(Chat, "", 1.0, false, FromModel), s.ttl)
  {
    OneTurn(s, RequestFor(query));
    var empty: Routes := map[];
    assert Unexpired(empty, 0) == empty;
  }

  /** The kept answer then hides the rule for the other spelling. */
  lemma SpacingShows(s: Settings, plain: string, spread: string)
    requires RouteCacheOn(s) && s.threshold <= 1.0 && NormalQuery(plain) == NormalQuery(spread)
    requires MatchesRule(plain, s.keywords) && !MatchesRule(spread, s.keywords)
    ensures !LastTransparent(s, CHATTY, [RequestFor(spread), RequestFor(plain)])
  {
    var run := [RequestFor(spread), RequestFor(plain)];
    assert run[..1] == [RequestFor(spread)];
    ChatKept(s, spread);
    assert KeyOf(AskFor(plain)) == KeyOf(AskFor(spread));
    assert LastRoute(s, CHATTY, run).decision == Chat;
    assert Answered(s, AskFor(plain), CHATTY(TrimSpace(plain))).decision != Chat;
  }

  lemma OneRunShows(s: Settings, classify: Classifier, requests: seq<RouteRequest>)
    requires requests != [] && ByNormalForm(classify) && !LastTransparent(s, classify, requests)
    ensures !Transparent(s)
  {
  }

  lemma UncoveredShows(s: Settings)
    requires Loaded(s.keywords) && s.threshold <= 1.0 && RouteCacheOn(s) && !AllCovered(s.keywords)
    ensures !Transparent(s)
  {
    var i: nat :| i < |s.keywords| && !Covered(s.keywords, i);
    var plain, spread := s.keywords[i], Spread(s.keywords[i], s.keywords);
    UncoveredSplits(s.keywords, i);
    SpacingShows(s, plain, spread);
    OneRunShows(s, CHATTY, [RequestFor(spread), RequestFor(plain)]);
  }

  lemma OffTransparent(s: Settings, classify: Classifier, requests: seq<RouteRequest>)
    requires !RouteCacheOn(s) && requests != []
    ensures LastTransparent(s, classify, requests)
  {
  }

  /**
   * The route cache is transparent, for every classifier and every run, exactly when it is
   * off or every keyword of the rules contains one without white space.
   */
  lemma TransparentExactly(s: Settings)
    requires Loaded(s.keywords) && s.threshold <= 1.0
    ensures Transparent(s) <==> !RouteCacheOn(s) || AllCovered(s.keywords)
  {
    if RouteCacheOn(s) && !AllCovered(s.keywords) {
      UncoveredShows(s);
    } else {
      forall classify: Classifier, requests: seq<RouteRequest> | requests != [] && ByNormalForm(classify)
        ensures LastTransparent(s, classify, requests)
      {
        if RouteCacheOn(s) {
          CoveredTransparent(s, classify, requests);
        } else {
          OffTransparent(s, classify, requests);
        }
      }
    }
  }

  // ---------------------------------------------------------------- size

  /** The victim is an entry whenever one has to go. */
  predicate PlaceFits(s: Settings, routes: Routes, key: RouteKey, route: Route, now: int, victim: RouteKey) {
    var live := Unexpired(routes, now);
    Cacheable(s, route) && key !in live && |live| >= s.max ==> victim in live
  }

  lemma UnexpiredSize(routes: Routes, now: int)
    ensures |Unexpired(routes, now)| <= |routes|
  {
    SubsetSize(Unexpired(routes, now).Keys, routes.Keys);
  }

  lemma PlaceSize(live: Routes, key: RouteKey, max: int, victim: RouteKey, stored: StoredRoute)
    requires |live| <= max && max > 0 && (key !in live && |live| >= max ==> victim in live)
    ensures |WithPlace(live, key, max, victim)[key := stored]| <= max
  {
    var room := WithPlace(live, key, max, victim);
    if key !in live && |live| >= max {
      assert room.Keys == live.Keys - {victim};
    }
    assert room[key := stored].Keys == room.Keys + {key};
  }

  /** Storing never takes the cache over its limit. */
  lemma RememberedBounded(
      s: Settings, routes: Routes, key: RouteKey, route: Route, now: int, victim: RouteKey)
    requires |routes| <= s.max && PlaceFits(s, routes, key, route, now, victim)
    ensures |Remembered(s, routes, key, route, now, victim)| <= s.max
  {
    if Cacheable(s, route) {
      UnexpiredSize(routes, now);
      PlaceSize(Unexpired(routes, now), key, s.max, victim, StoredRoute(route, now + s.ttl));
    }
  }

  /** Each request of a run that has to evict names an entry that is there. */
  predicate VictimsFit(s: Settings, classify: Classifier, requests: seq<RouteRequest>) {
    requests == [] ||
    var n := |requests| - 1;
    var routes, r := RoutesAfter(s, classify, requests[..n]), requests[n];
    var key := KeyOf(r.ask);
    && VictimsFit(s, classify, requests[..n])
    && PlaceFits(s, WithoutStale(s, routes, key, r.now), key, Answered(s, r.ask, classify(TrimSpace(r.ask.query))), r.now, r.victim)
  }

  lemma WithoutStaleSize(s: Settings, routes: Routes, key: RouteKey, now: int)
    ensures |WithoutStale(s, routes, key, now)| <= |routes|
  {
    SubsetSize((routes - {key}).Keys, routes.Keys);
  }

  lemma DecideBounded(s: Settings, classify: Classifier, r: RouteRequest, routes: Routes)
    requires |routes| <= s.max
    requires var key := KeyOf(r.ask);
             PlaceFits(s, WithoutStale(s, routes, key, r.now), key, Answered(s, r.ask, classify(TrimSpace(r.ask.query))), r.now, r.victim)
    ensures |Decide(s, classify, r, routes).routes| <= s.max
  {
    var key := KeyOf(r.ask);
    WithoutStaleSize(s, routes, key, r.now);
    RememberedBounded(s, WithoutStale(s, routes, key, r.now), key, Answered(s, r.ask, classify(TrimSpace(r.ask.query))), r.now, r.victim);
  }

  /** No run takes the cache over its limit. */
  lemma {:induction false} RoutesBounded(s: Settings, classify: Classifier, requests: seq<RouteRequest>)
    requires s.max >= 0 && VictimsFit(s, classify, requests)
    ensures |RoutesAfter(s, classify, requests)| <= s.max
  {
    if requests != [] {
      var n := |requests| - 1;
      RoutesBounded(s, classify, requests[..n]);
      DecideBounded(s, classify, requests[n], RoutesAfter(s, classify, requests[..n]));
    }
  }

  // ---------------------------------------------------------------- the router

  class AgentRouter {
    const settings: Settings
    var routes: Routes

    constructor (settings: Settings)
      ensures this.settings == settings && routes == map[]
    {
      this.settings := settings;
      routes := map[];
    }

    /** A copy of the cached route, marked as such; an expired one is deleted. */
    method LoadCachedRoute(key: RouteKey, now: int) returns (found: Option<Route>)
      modifies this
      ensures found == Found(settings, old(routes), key, now)
      ensures routes == WithoutStale(settings, old(routes), key, now)
    {
      if !RouteCacheOn(settings) || key !in routes {
        return None;
      }
      if routes[key].expiresAt <= now {
        routes := routes - {key};
        return None;
      }
      found := Some(routes[key].route.(origin := FromCache));
    }

    /** Deletes the expired entries one by one, in whatever order the map yields them. */
    method DropExpired(now: int)
      modifies this
      ensures routes == Unexpired(old(routes), now)
    {
      var todo := routes.Keys;
      while todo != {}
        invariant todo <= old(routes).Keys
        invariant forall k | k in old(routes) ::
                    k in routes <==> k in todo || old(routes)[k].expiresAt > now
        invariant forall k | k in routes :: k in old(routes) && routes[k] == old(routes)[k]
      {
        var key :| key in todo;
        todo := todo - {key};
        if key in routes && routes[key].expiresAt <= now {
          routes := routes - {key};
        }
      }
    }

    /** Removes whichever entry comes first when a new key finds the cache full. */
    method MakePlace(key: RouteKey) returns (ghost victim: RouteKey)
      requires settings.max > 0
      modifies this
      ensures routes == WithPlace(old(routes), key, settings.max, victim)
      ensures key !in old(routes) && |old(routes)| >= settings.max ==> victim in old(routes)
    {
      victim := key;
      if key !in routes && |routes| >= settings.max {
        assert routes.Keys != {};
        var first :| first in routes;
        victim := first;
        routes := routes - {first};
      }
    }

    method CacheRoute(key: RouteKey, route: Route, now: int) returns (ghost victim: RouteKey)
      modifies this
      ensures routes == Remembered(settings, old(routes), key, route, now, victim)
      ensures PlaceFits(settings, old(routes), key, route, now, victim)
    {
      victim := key;
      if Cacheable(settings, route) {
        DropExpired(now);
        victim := MakePlace(key);
        routes := routes[key := StoredRoute(route, now + settings.ttl)];
      }
    }

    /** One request in the automatic mode. */
    method Route(classify: Classifier, ask: Ask, now: int) returns (route: Route, ghost victim: RouteKey)
      modifies this
      ensures Turn(route, routes) == Decide(settings, classify, RouteRequest(ask, now, victim), old(routes))
    {
      victim := ("", "", "");
      var key := KeyOf(ask);
      var found := LoadCachedRoute(key, now);
      if found.Some? {
        return found.value, victim;
      }
      route := Answered(settings, ask, classify(TrimSpace(ask.query)));
      victim := CacheRoute(key, route, now);
    }
  }
}

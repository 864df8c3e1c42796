/** Where the routes of the plain router come from over whole runs: its own rules and classifier, or an earlier
    answer to the same key that has not expired. */
module RouteRuns {
  import opened Text
  import opened Funnel
  import opened FunnelCache
  import opened Keywords
  import opened RouteCache

  function AnswerTo(s: Settings, classify: Classifier, r: RouteRequest): Route {
    Answered(s, r.ask, classify(TrimSpace(r.ask.query)))
  }

  /** The stored route is the decided answer to this request, and expires with it. */
  ghost predicate KeptFrom(s: Settings, classify: Classifier, r: RouteRequest, key: RouteKey, stored: StoredRoute) {
    && KeyOf(r.ask) == key && stored == StoredRoute(AnswerTo(s, classify, r), r.now + s.ttl)
    && stored.route.decision != Confirm
  }

  ghost predicate Traced(s: Settings, classify: Classifier, requests: seq<RouteRequest>, key: RouteKey, stored: StoredRoute) {
    exists i | 0 <= i < |requests| :: KeptFrom(s, classify, requests[i], key, stored)
  }

  ghost predicate AllTraced(s: Settings, classify: Classifier, requests: seq<RouteRequest>, routes: Routes) {
    forall key | key in routes :: Traced(s, classify, requests, key, routes[key])
  }

  lemma TracedLater(s: Settings, classify: Classifier, requests: seq<RouteRequest>, r: RouteRequest, key: RouteKey, stored: StoredRoute)
    requires Traced(s, classify, requests, key, stored)
    ensures Traced(s, classify, requests + [r], key, stored)
  {
    var i :| 0 <= i < |requests| && KeptFrom(s, classify, requests[i], key, stored);
    assert (requests + [r])[i] == requests[i];
  }

  lemma RememberedFrom(s: Settings, routes: Routes, key: RouteKey, route: Route, now: int, victim: RouteKey, other: RouteKey)
    requires other in Remembered(s, routes, key, route, now, victim)
    ensures var stored := Remembered(s, routes, key, route, now, victim)[other];
            || (other in routes && stored == routes[other])
            || (other == key && RouteCacheOn(s) && route.decision != Confirm && stored == StoredRoute(route, now + s.ttl))
  {
  }

  lemma {:induction false} RoutesTraced(s: Settings, classify: Classifier, requests: seq<RouteRequest>)
    ensures AllTraced(s, classify, requests, RoutesAfter(s, classify, requests))
  {
    if requests != [] {
      var n := |requests| - 1;
      var r, before := requests[n], RoutesAfter(s, classify, requests[..n]);
      RoutesTraced(s, classify, requests[..n]);
      assert requests == requests[..n] + [r];
      forall key | key in RoutesAfter(s, classify, requests)
        ensures Traced(s, classify, requests, key, RoutesAfter(s, classify, requests)[key])
      {
        var stored := RoutesAfter(s, classify, requests)[key];
        if Found(s, before, KeyOf(r.ask), r.now).None? {
          RememberedFrom(s, WithoutStale(s, before, KeyOf(r.ask), r.now), KeyOf(r.ask), AnswerTo(s, classify, r), r.now, r.victim, key);
        }
        if key in before && stored == before[key] {
          TracedLater(s, classify, requests[..n], r, key, stored);
        } else {
          assert KeptFrom(s, classify, requests[n], key, stored);
        }
      }
    }
  }

  /** In every run a request gets its own answer, or that of an earlier request with its key which
      was decided and has not expired, marked as cached. */
  lemma RoutedExactly(s: Settings, classify: Classifier, requests: seq<RouteRequest>)
    requires requests != []
    ensures var n := |requests| - 1;
            var route, r := LastRoute(s, classify, requests), requests[n];
            || route == AnswerTo(s, classify, r)
            || exists i | 0 <= i < n ::
                 && KeyOf(requests[i].ask) == KeyOf(r.ask) && r.now < requests[i].now + s.ttl
                 && AnswerTo(s, classify, requests[i]).decision != Confirm
                 && route == AnswerTo(s, classify, requests[i]).(origin := FromCache)
  {
    var n := |requests| - 1;
    var r, before := requests[n], RoutesAfter(s, classify, requests[..n]);
    RoutesTraced(s, classify, requests[..n]);
    if Found(s, before, KeyOf(r.ask), r.now).Some? {
      var i :| 0 <= i < n && KeptFrom(s, classify, requests[..n][i], KeyOf(r.ask), before[KeyOf(r.ask)]);
      assert requests[..n][i] == requests[i];
    }
  }

  lemma OwnAnswerIsMiss(s: Settings, classify: Classifier, r: RouteRequest, routes: Routes)
    requires Decide(s, classify, r, routes).route == AnswerTo(s, classify, r)
    ensures Found(s, routes, KeyOf(r.ask), r.now).None?
  {
    AnsweredExactly(s, r.ask, classify(TrimSpace(r.ask.query)));
  }

  lemma StoredIsFound(s: Settings, routes: Routes, key: RouteKey, route: Route, now: int, victim: RouteKey, later: int)
    requires RouteCacheOn(s) && route.decision != Confirm && !route.degraded
    ensures Found(s, Remembered(s, routes, key, route, now, victim), key, later) ==
            if later < now + s.ttl then Some(route.(origin := FromCache)) else None
  {
  }

  lemma NextServed(s: Settings, classify: Classifier, r: RouteRequest, next: RouteRequest, routes: Routes)
    requires KeyOf(next.ask) == KeyOf(r.ask) && s.ttl > 0 && s.max > 0
    requires Decide(s, classify, r, routes).route == AnswerTo(s, classify, r) && AnswerTo(s, classify, r).decision != Confirm
    ensures Decide(s, classify, next, Decide(s, classify, r, routes).routes).route ==
            if next.now < r.now + s.ttl then AnswerTo(s, classify, r).(origin := FromCache) else AnswerTo(s, classify, next)
  {
    var key := KeyOf(r.ask);
    OwnAnswerIsMiss(s, classify, r, routes);
    AnsweredExactly(s, r.ask, classify(TrimSpace(r.ask.query)));
    StoredIsFound(s, WithoutStale(s, routes, key, r.now), key, AnswerTo(s, classify, r), r.now, r.victim, next.now);
  }

  /** A decided answer is given again, marked as cached, to a next request with its key, exactly until it expires. */
  lemma AnswerServesExactly(s: Settings, classify: Classifier, requests: seq<RouteRequest>, r: RouteRequest, next: RouteRequest)
    requires KeyOf(next.ask) == KeyOf(r.ask) && s.ttl > 0 && s.max > 0
    requires LastRoute(s, classify, requests + [r]) == AnswerTo(s, classify, r) && AnswerTo(s, classify, r).decision != Confirm
    ensures LastRoute(s, classify, (requests + [r]) + [next]) ==
            if next.now < r.now + s.ttl then AnswerTo(s, classify, r).(origin := FromCache) else AnswerTo(s, classify, next)
  {
    var run := requests + [r];
    assert run[..|requests|] == requests && (run + [next])[..|run|] == run;
    NextServed(s, classify, r, next, RoutesAfter(s, classify, requests));
  }

  ghost function UnexpiredKeys(routes: Routes, now: int): set<RouteKey> {
    set key | key in routes && now < routes[key].expiresAt
  }

  /** Storing a decided answer drops the expired routes, and of the others only the victim, and that only for
      a new key in a full cache. */
  lemma StoringKeepsExactly(
      s: Settings, routes: Routes, key: RouteKey, route: Route, now: int, victim: RouteKey, other: RouteKey)
    requires s.ttl > 0 && s.max > 0 && route.decision != Confirm && !route.degraded && other != key
    ensures var live := UnexpiredKeys(routes, now);
            var kept := Remembered(s, routes, key, route, now, victim);
            && (other in kept <==> other in live && !(other == victim && key !in live && |live| >= s.max))
            && (other in kept ==> kept[other] == routes[other])
            && key in kept && kept[key] == StoredRoute(route, now + s.ttl)
  {
    assert UnexpiredKeys(routes, now) == Unexpired(routes, now).Keys;
  }

  /** A look-up drops the route it finds expired, and no other. */
  lemma StaleDropped(s: Settings, routes: Routes, key: RouteKey, now: int, other: RouteKey)
    requires s.ttl > 0 && s.max > 0
    ensures other in WithoutStale(s, routes, key, now) <==> other in routes && (other == key ==> now < routes[key].expiresAt)
  {
  }

  /** Without a lifetime or without room nothing is ever kept. */
  lemma {:induction false} OffKeepsNothing(s: Settings, classify: Classifier, requests: seq<RouteRequest>)
    requires s.ttl <= 0 || s.max <= 0
    ensures RoutesAfter(s, classify, requests) == map[]
  {
    if requests != [] {
      OffKeepsNothing(s, classify, requests[..|requests| - 1]);
    }
  }
}

/**
 * The funnel serving requests that overlap. Looking candidates up and storing them are separate
 * atomic steps (each holds the mutex of the cache), with the classifier's reply between them,
 * and every reply is whatever the classifier happens to say.
 */
module FunnelConcurrency {
  import opened Text
  import opened Funnel
  import opened FunnelAcceptance
  import opened FunnelAnswers
  import opened FunnelCache
  import opened FunnelMargin
  import opened FunnelRuns

  /** A request that has missed the cache and waits for the classifier. */
  datatype Waiting = Waiting(client: string, call: Call)

  /** A reply, with the request it was for; `call.now` is the clock when it came. */
  datatype Heard = Heard(call: Call, reply: Reply)

  /** An answered request; `basis` is the checked output the last layer worked on, if it was reached. */
  datatype Served = Served(client: string, call: Call, basis: Option<Output>, result: RouteResult)

  datatype State = State(cache: Cache, waiting: map<nat, Waiting>, heard: seq<Heard>, served: seq<Served>)

  datatype Step =
    | Begin(id: nat, client: string, call: Call)
    | Finish(id: nat, reply: Reply, now: int, victim: string)

  const START := State(map[], map[], [], [])

  function KeyOf(env: Env, call: Call): string {
    Key(env, call.input.query, call.cfg.policyVersion)
  }

  function Serve(s: State, client: string, call: Call, basis: Option<Output>, result: RouteResult): State {
    s.(served := s.served + [Served(client, call, basis, result)])
  }

  /** The guard and the look-up: an answer, or a request that waits. */
  function Begun(env: Env, s: State, id: nat, client: string, call: Call): (s': State)
    requires HoldsCandidates(s.cache)
    ensures HoldsCandidates(s'.cache)
  {
    match Guard(call.input.query, call.strategy, call.cfg)
    case Some(r) => Serve(s, client, call, None, r)
    case None =>
      match Lookup(s.cache, KeyOf(env, call), call.cfg, call.now)
      case Some(output) => Serve(s, client, call, Some(output), Finished(call, output))
      case None =>
        EveryDropped(HasCandidates, s.cache, KeyOf(env, call), call.cfg, call.now);
        s.(cache := Dropped(s.cache, KeyOf(env, call), call.cfg, call.now), waiting := s.waiting[id := Waiting(client, call)])
  }

  /** The reply has come: its candidates are stored and the request is answered from them. */
  function Replied(env: Env, s: State, client: string, call: Call, reply: Reply, victim: string): (s': State)
    requires HoldsCandidates(s.cache)
    ensures HoldsCandidates(s'.cache)
  {
    var told := s.(heard := s.heard + [Heard(call, reply)]);
    match Classify(reply, call.cfg.topK)
    case Unusable(reason) => Serve(told, client, call, None, ConfirmRoute(reason))
    case Usable(output) =>
      EveryStored(HasCandidates, s.cache, KeyOf(env, call), output, call.cfg, call.now, victim);
      Serve(told.(cache := Stored(s.cache, KeyOf(env, call), output, call.cfg, call.now, victim)),
        client, call, Some(output), Finished(call, output))
  }

  /** A request begins once, and a reply comes to a waiting request; other steps do nothing. */
  function Apply(env: Env, s: State, step: Step): (s': State)
    requires HoldsCandidates(s.cache)
    ensures HoldsCandidates(s'.cache)
  {
    match step
    case Begin(id, client, call) => if id in s.waiting then s else Begun(env, s, id, client, call)
    case Finish(id, reply, now, victim) =>
      if id !in s.waiting then s
      else
        var w := s.waiting[id];
        Replied(env, s.(waiting := s.waiting - {id}), w.client, w.call.(now := now), reply, victim)
  }

  /** The state after any interleaving of requests; replies need not depend on the query, nor agree. */
  function After(env: Env, steps: seq<Step>): (s: State)
    ensures HoldsCandidates(s.cache)
  {
    if steps == [] then START
    else
      var n := |steps| - 1;
      Apply(env, After(env, steps[..n]), steps[n])
  }

  /** What a pass through the cache ends in, but for the records kept of it. */
  ghost predicate PassesAs(s: State, s': State, call: Call, outcome: Outcome) {
    && s'.cache == outcome.cache && s'.waiting == s.waiting && |s'.served| == |s.served| + 1
    && s'.served[..|s.served|] == s.served
    && s'.served[|s.served|].call == call && s'.served[|s.served|].result == outcome.result
  }

  lemma RepliedIsMissed(env: Env, s: State, client: string, call: Call, victim: string)
    requires HoldsCandidates(s.cache)
    ensures PassesAs(s, Replied(env, s, client, call, ReplyTo(env, call.input.query), victim), call,
                   Missed(env, call, s.cache, victim))
  {
  }

  lemma FinishIsReplied(env: Env, s: State, id: nat, client: string, call: Call, reply: Reply, victim: string)
    requires HoldsCandidates(s.cache) && id !in s.waiting
    ensures Apply(env, s.(waiting := s.waiting[id := Waiting(client, call)]), Finish(id, reply, call.now, victim))
         == Replied(env, s, client, call, reply, victim)
  {
    assert s.waiting[id := Waiting(client, call)] - {id} == s.waiting;
  }

  /** A request that nothing interrupts goes through the cache as one step. */
  lemma UninterruptedIsCached(env: Env, s: State, id: nat, client: string, call: Call, victim: string)
    requires HoldsCandidates(s.cache) && id !in s.waiting
    ensures PassesAs(s, Apply(env, Apply(env, s, Begin(id, client, call)),
                            Finish(id, ReplyTo(env, call.input.query), call.now, victim)),
                   call, Cached(env, call, s.cache, victim))
  {
    CachedCases(env, call, s.cache, victim);
    var key := KeyOf(env, call);
    if Guard(call.input.query, call.strategy, call.cfg).None? && Lookup(s.cache, key, call.cfg, call.now).None? {
      var dropped := s.(cache := Dropped(s.cache, key, call.cfg, call.now));
      EveryDropped(HasCandidates, s.cache, key, call.cfg, call.now);
      FinishIsReplied(env, dropped, id, client, call, ReplyTo(env, call.input.query), victim);
      RepliedIsMissed(env, dropped, client, call, victim);
    }
  }

  // ---------------------------------------------------------------- where candidates come from

  /** The reply's checked output, for a request with this key. */
  predicate Yields(env: Env, h: Heard, key: string, output: Output) {
    KeyOf(env, h.call) == key && Classify(h.reply, h.call.cfg.topK) == Usable(output)
  }

  function Expiry(h: Heard): int {
    h.call.now + h.call.cfg.cacheTtl
  }

  ghost predicate EntryOk(env: Env, heard: seq<Heard>, key: string, entry: Entry) {
    exists i | 0 <= i < |heard| :: Yields(env, heard[i], key, entry.output) && entry.expiresAt == Expiry(heard[i])
  }

  /** The request's own reply, or one to an earlier request with its key that has not expired yet. */
  ghost predicate Sourced(env: Env, heard: seq<Heard>, call: Call, output: Output) {
    exists i | 0 <= i < |heard| ::
      Yields(env, heard[i], KeyOf(env, call), output) && (heard[i].call == call || call.now < Expiry(heard[i]))
  }

  ghost predicate RefusedBy(heard: seq<Heard>, v: Served) {
    exists i | 0 <= i < |heard| ::
      heard[i].call == v.call && Classify(heard[i].reply, v.call.cfg.topK) == Unusable(v.result.reason)
  }

  ghost predicate ServedOk(env: Env, heard: seq<Heard>, v: Served) {
    match v.basis
    case Some(output) =>
      && NoKeyword(v.call.input.query, v.call.cfg)
      && Sourced(env, heard, v.call, output)
      && output.candidates != [] && v.result == Finished(v.call, output)
    case None =>
      || Guard(v.call.input.query, v.call.strategy, v.call.cfg) == Some(v.result)
      || (NoKeyword(v.call.input.query, v.call.cfg) && v.result == ConfirmRoute(v.result.reason) && RefusedBy(heard, v))
  }

  ghost predicate EntriesOk(env: Env, heard: seq<Heard>, cache: Cache) {
    forall key | key in cache :: EntryOk(env, heard, key, cache[key])
  }

  ghost predicate AllServedOk(env: Env, heard: seq<Heard>, served: seq<Served>) {
    forall i | 0 <= i < |served| :: ServedOk(env, heard, served[i])
  }

  ghost predicate WaitingOk(waiting: map<nat, Waiting>) {
    forall id | id in waiting :: NoKeyword(waiting[id].call.input.query, waiting[id].call.cfg)
  }

  ghost predicate Inv(env: Env, s: State) {
    EntriesOk(env, s.heard, s.cache) && AllServedOk(env, s.heard, s.served) && WaitingOk(s.waiting)
  }

  lemma EntryStays(env: Env, heard: seq<Heard>, h: Heard, key: string, entry: Entry)
    requires EntryOk(env, heard, key, entry)
    ensures EntryOk(env, heard + [h], key, entry)
  {
    var i :| 0 <= i < |heard| && Yields(env, heard[i], key, entry.output) && entry.expiresAt == Expiry(heard[i]);
    assert (heard + [h])[i] == heard[i];
  }

  lemma ServedStays(env: Env, heard: seq<Heard>, h: Heard, v: Served)
    requires ServedOk(env, heard, v)
    ensures ServedOk(env, heard + [h], v)
  {
    if v.basis.Some? {
      var i :| 0 <= i < |heard| && Yields(env, heard[i], KeyOf(env, v.call), v.basis.value)
               && (heard[i].call == v.call || v.call.now < Expiry(heard[i]));
      assert (heard + [h])[i] == heard[i];
    } else if RefusedBy(heard, v) {
      var i :| 0 <= i < |heard| && heard[i].call == v.call
               && Classify(heard[i].reply, v.call.cfg.topK) == Unusable(v.result.reason);
      assert (heard + [h])[i] == heard[i];
    }
  }

  lemma AllStay(env: Env, heard: seq<Heard>, h: Heard, cache: Cache, served: seq<Served>)
    requires EntriesOk(env, heard, cache) && AllServedOk(env, heard, served)
    ensures EntriesOk(env, heard + [h], cache) && AllServedOk(env, heard + [h], served)
  {
    forall key | key in cache ensures EntryOk(env, heard + [h], key, cache[key]) {
      EntryStays(env, heard, h, key, cache[key]);
    }
    forall i | 0 <= i < |served| ensures ServedOk(env, heard + [h], served[i]) {
      ServedStays(env, heard, h, served[i]);
    }
  }

  lemma ServeKeeps(env: Env, s: State, client: string, call: Call, basis: Option<Output>, result: RouteResult)
    requires AllServedOk(env, s.heard, s.served) && ServedOk(env, s.heard, Served(client, call, basis, result))
    ensures AllServedOk(env, s.heard, Serve(s, client, call, basis, result).served)
  {
  }

  lemma DroppedKeeps(env: Env, heard: seq<Heard>, cache: Cache, key: string, cfg: Config, now: int)
    requires EntriesOk(env, heard, cache)
    ensures EntriesOk(env, heard, Dropped(cache, key, cfg, now))
  {
  }

  lemma StoredKeeps(env: Env, heard: seq<Heard>, cache: Cache, key: string, output: Output, cfg: Config, now: int, victim: string)
    requires EntriesOk(env, heard, cache) && EntryOk(env, heard, key, Entry(output, now + cfg.cacheTtl))
    ensures EntriesOk(env, heard, Stored(cache, key, output, cfg, now, victim))
  {
  }

  lemma BegunKeeps(env: Env, s: State, id: nat, client: string, call: Call)
    requires HoldsCandidates(s.cache) && Inv(env, s)
    ensures Inv(env, Begun(env, s, id, client, call))
  {
    GuardSilent(call);
    var key, guard := KeyOf(env, call), Guard(call.input.query, call.strategy, call.cfg);
    if guard.Some? {
      ServeKeeps(env, s, client, call, None, guard.value);
    } else {
      var found := Lookup(s.cache, key, call.cfg, call.now);
      if found.Some? {
        assert EntryOk(env, s.heard, key, s.cache[key]);
        assert Sourced(env, s.heard, call, found.value);
        ServeKeeps(env, s, client, call, found, Finished(call, found.value));
      } else {
        DroppedKeeps(env, s.heard, s.cache, key, call.cfg, call.now);
      }
    }
  }

  lemma RepliedKeeps(env: Env, s: State, client: string, call: Call, reply: Reply, victim: string)
    requires HoldsCandidates(s.cache) && Inv(env, s) && NoKeyword(call.input.query, call.cfg)
    ensures Inv(env, Replied(env, s, client, call, reply, victim))
  {
    var h := Heard(call, reply);
    var told := s.(heard := s.heard + [h]);
    AllStay(env, s.heard, h, s.cache, s.served);
    assert told.heard[|s.heard|] == h;
    match Classify(reply, call.cfg.topK)
    case Unusable(reason) =>
      assert RefusedBy(told.heard, Served(client, call, None, ConfirmRoute(reason)));
      ServeKeeps(env, told, client, call, None, ConfirmRoute(reason));
    case Usable(output) =>
      assert Yields(env, h, KeyOf(env, call), output);
      assert EntryOk(env, told.heard, KeyOf(env, call), Entry(output, call.now + call.cfg.cacheTtl));
      StoredKeeps(env, told.heard, s.cache, KeyOf(env, call), output, call.cfg, call.now, victim);
      assert Sourced(env, told.heard, call, output);
      ServeKeeps(env, told, client, call, Some(output), Finished(call, output));
  }

  lemma StepKeeps(env: Env, s: State, step: Step)
    requires HoldsCandidates(s.cache) && Inv(env, s)
    ensures Inv(env, Apply(env, s, step))
  {
    match step
    case Begin(id, client, call) => BegunKeeps(env, s, id, client, call);
    case Finish(id, reply, now, victim) =>
      if id in s.waiting {
        var w := s.waiting[id];
        RepliedKeeps(env, s.(waiting := s.waiting - {id}), w.client, w.call.(now := now), reply, victim);
      }
  }

  lemma {:induction false} RunKeeps(env: Env, steps: seq<Step>)
    ensures Inv(env, After(env, steps))
  {
    if steps != [] {
      var n := |steps| - 1;
      RunKeeps(env, steps[..n]);
      StepKeeps(env, After(env, steps[..n]), steps[n]);
    }
  }

  // ---------------------------------------------------------------- acceptance over whole runs

  /** The first layer routes by itself. */
  predicate RuleRoutes(call: Call) {
    && !IsRisky(call) && MatchesRule(GuardQuery(call.input.query), call.cfg.incidentKeywords)
    && ConcreteStrategy(call.strategy, call.cfg.defaultStrategy) in call.cfg.allowed
  }

  lemma YieldedSound(env: Env, h: Heard, key: string, output: Output)
    requires Yields(env, h, key, output)
    ensures output.candidates != [] && "" !in output.slots && !output.risk.Unset?
    ensures forall i | 0 <= i < |output.candidates| :: Supported(output.candidates[i])
  {
    ClassifiedSlots(h.reply, h.call.cfg.topK);
    forall i | 0 <= i < |output.candidates| ensures Supported(output.candidates[i]) {
      ReplySupported(h.reply, h.call.cfg.topK, i);
    }
  }

  lemma SourcedSound(env: Env, heard: seq<Heard>, call: Call, output: Output)
    requires Sourced(env, heard, call, output)
    ensures output.candidates != [] && "" !in output.slots && !output.risk.Unset?
    ensures !Chosen(call, output).intent.Unsupported?
  {
    var i :| 0 <= i < |heard| && Yields(env, heard[i], KeyOf(env, call), output);
    YieldedSound(env, heard[i], KeyOf(env, call), output);
    EffectiveIntent(call, output);
  }

  /**
   * In every run, whatever the classifier says to whom and whatever is cached, evicted or
   * overlaps, a request is routed exactly by the rules of the first layer or by an output
   * that meets every condition of the last; that output is the classifier's, for this request or
   * for a recent one with the same normal form and policy version.
   */
  lemma RoutedExactly(env: Env, steps: seq<Step>, i: nat)
    requires i < |After(env, steps).served|
    ensures var v := After(env, steps).served[i];
            && (v.result.decision != Confirm <==>
                  RuleRoutes(v.call) || (v.basis.Some? && AcceptableOutput(v.call, v.basis.value)))
            && (Accepted(v.result) <==> v.basis.Some? && AcceptableOutput(v.call, v.basis.value))
            && (Accepted(v.result) ==> Carries(v.call, v.basis.value, Chosen(v.call, v.basis.value), v.result))
            && (v.basis.Some? ==> Sourced(env, After(env, steps).heard, v.call, v.basis.value))
            && (IsRisky(v.call) ==> v.result.decision == Confirm && v.result.risk == High && v.result.clarification.None?)
            && (RuleRoutes(v.call) ==>
                  && v.result.decision == Incident && v.result.risk == Low && v.result.confidence == 1.0 && !v.result.degraded
                  && v.result.strategy == ConcreteStrategy(v.call.strategy, v.call.cfg.defaultStrategy))
  {
    RunKeeps(env, steps);
    var s := After(env, steps);
    var v := s.served[i];
    assert ServedOk(env, s.heard, v);
    GuardExactly(v.call);
    GuardSilent(v.call);
    if v.basis.Some? {
      SourcedSound(env, s.heard, v.call, v.basis.value);
      FinishedExactly(v.call, v.basis.value);
    }
  }

  /** What the last layer makes of a sound output. */
  lemma FinishedExactly(call: Call, output: Output)
    requires output.candidates != [] && "" !in output.slots && !output.risk.Unset?
    requires !Chosen(call, output).intent.Unsupported? && NoKeyword(call.input.query, call.cfg)
    ensures Finished(call, output).decision != Confirm <==> Accepted(Finished(call, output))
    ensures Accepted(Finished(call, output)) <==> AcceptableOutput(call, output)
    ensures Accepted(Finished(call, output)) ==> Carries(call, output, Chosen(call, output), Finished(call, output))
  {
    FinishedAccepts(call, output);
    FinishedSource(call, output);
    if Accepted(Finished(call, output)) {
      FinishedCarries(call, output);
    }
  }

  /** A classifier that could not be reached, or whose reply failed the schema. */
  ghost predicate RefusedFor(v: Served, reply: Reply) {
    && v.result.decision == Confirm && v.result.degraded && v.result.clarification.None?
    && (v.result.reason == ClassifierUnavailable <==> reply.Unreachable?)
    && (v.result.reason == InvalidSchema <==> !reply.Unreachable?)
    && (reply.Decoded? ==>
          || Offered(reply.raw) == [] || reply.raw.risk.UnsupportedRisk?
          || exists i | 0 <= i < |Offered(reply.raw)| :: !Supported(Offered(reply.raw)[i]))
  }

  lemma RefusedReply(v: Served, reply: Reply)
    requires Classify(reply, v.call.cfg.topK) == Unusable(v.result.reason) && v.result == ConfirmRoute(v.result.reason)
    ensures RefusedFor(v, reply)
  {
  }

  /**
   * In every run each request is answered by the first layer, is refused for a reply of its own that
   * could not be used, or ends as the last layer's conditions on its output say: with approval
   * needed, out of scope, with a question as long as rounds are left, or routed.
   */
  lemma AnsweredExactly(env: Env, steps: seq<Step>, i: nat)
    requires i < |After(env, steps).served|
    ensures var s := After(env, steps);
            var v := s.served[i];
            match v.basis
            case Some(output) => output.candidates != [] && EndsAs(v.result, v.call, output) && Fills(v.result, v.call, output)
            case None => NoKeyword(v.call.input.query, v.call.cfg) ==>
              exists h | h in s.heard :: h.call == v.call && RefusedFor(v, h.reply)
  {
    RunKeeps(env, steps);
    var s := After(env, steps);
    var v := s.served[i];
    assert ServedOk(env, s.heard, v);
    GuardSilent(v.call);
    if v.basis.Some? {
      SourcedSound(env, s.heard, v.call, v.basis.value);
      FinishedAnswers(v.call, v.basis.value);
    } else if NoKeyword(v.call.input.query, v.call.cfg) {
      var k :| 0 <= k < |s.heard| && s.heard[k].call == v.call
               && Classify(s.heard[k].reply, v.call.cfg.topK) == Unusable(v.result.reason);
      RefusedReply(v, s.heard[k].reply);
    }
  }

  lemma StrongestSourced(env: Env, heard: seq<Heard>, call: Call, output: Output, r: RouteResult) returns (h: Heard)
    requires Sourced(env, heard, call, output) && AcceptableOutput(call, output)
    requires Carries(call, output, Chosen(call, output), r) && r.decision == Chat
    ensures h in heard && Yields(env, h, KeyOf(env, call), output) && h.reply.Decoded?
    ensures forall j | 0 <= j < |Offered(h.reply.raw)| :: r.confidence >= Offered(h.reply.raw)[j].confidence
  {
    var k :| 0 <= k < |heard| && Yields(env, heard[k], KeyOf(env, call), output);
    h := heard[k];
    forall j | 0 <= j < |Offered(h.reply.raw)| ensures r.confidence >= Offered(h.reply.raw)[j].confidence {
      StrongestJudged(call, h.reply.raw, h.call.cfg.topK, output, r, j);
    }
  }

  /** A chat answer rests on the strongest candidate of a reply, at the reply's own rating. */
  lemma ChatIsStrongest(env: Env, steps: seq<Step>, i: nat) returns (h: Heard)
    requires i < |After(env, steps).served|
    requires Accepted(After(env, steps).served[i].result) && After(env, steps).served[i].result.decision == Chat
    ensures var v := After(env, steps).served[i];
            && h in After(env, steps).heard && v.basis.Some? && Yields(env, h, KeyOf(env, v.call), v.basis.value)
            && h.reply.Decoded?
            && forall j | 0 <= j < |Offered(h.reply.raw)| :: v.result.confidence >= Offered(h.reply.raw)[j].confidence
  {
    RoutedExactly(env, steps, i);
    var v := After(env, steps).served[i];
    h := StrongestSourced(env, After(env, steps).heard, v.call, v.basis.value, v.result);
  }

  /** An acceptance keeps the margin over all the reply offered, exactly unless the reply leaks under the limit. */
  lemma AcceptedKeepsMargin(env: Env, steps: seq<Step>, i: nat, h: Heard)
    requires i < |After(env, steps).served| && Accepted(After(env, steps).served[i].result)
    requires var v := After(env, steps).served[i];
             Loaded(v.call.cfg) && v.basis.Some? && h.reply.Decoded? && Yields(env, h, KeyOf(env, v.call), v.basis.value)
    ensures var v := After(env, steps).served[i];
            v.basis.value.candidates != [] && (!Leaky(h.reply.raw, v.basis.value) ==>
              AheadOf(Chosen(v.call, v.basis.value), Offered(h.reply.raw), v.call.cfg.margin))
  {
    RoutedExactly(env, steps, i);
    var v := After(env, steps).served[i];
    MarginKeptExactly(h.reply.raw, h.call.cfg.topK, v.basis.value);
  }

  // ---------------------------------------------------------------- clarification rounds

  /** What one client was told, in order. */
  function TalkOf(served: seq<Served>, client: string): seq<Exchange> {
    if served == [] then []
    else
      var n := |served| - 1;
      TalkOf(served[..n], client) + if served[n].client == client then [Exchange(served[n].call, served[n].result)] else []
  }

  lemma ServedAsks(env: Env, steps: seq<Step>, i: nat)
    requires i < |After(env, steps).served|
    ensures AsksInRound(After(env, steps).served[i].result, After(env, steps).served[i].call)
  {
    RunKeeps(env, steps);
    var s := After(env, steps);
    var v := s.served[i];
    assert ServedOk(env, s.heard, v);
    GuardAsksNothing(v.call);
    if v.basis.Some? {
      FinishedAsks(v.call, v.basis.value);
    }
  }

  lemma {:induction false} TalkAsks(served: seq<Served>, client: string)
    requires forall i | 0 <= i < |served| :: AsksInRound(served[i].result, served[i].call)
    ensures AllAskInRound(TalkOf(served, client))
  {
    if served != [] {
      TalkAsks(served[..|served| - 1], client);
    }
  }

  /** In every run a client that echoes rounds is asked at most as often as configured. */
  lemma RoundsBounded(env: Env, steps: seq<Step>, client: string, max: nat)
    requires var talk := TalkOf(After(env, steps).served, client);
             Echoes(talk) && forall i | 0 <= i < |talk| :: talk[i].call.cfg.maxClarifications <= max
    ensures var talk := TalkOf(After(env, steps).served, client);
            Asked(talk) == LastRound(talk) <= max
  {
    var served := After(env, steps).served;
    forall i | 0 <= i < |served| ensures AsksInRound(served[i].result, served[i].call) {
      ServedAsks(env, steps, i);
    }
    TalkAsks(served, client);
    EchoesBounded(TalkOf(served, client), max);
  }

  // ---------------------------------------------------------------- transparency

  /** Every reply is what the classifier says for its query, and limits follow the policy version. */
  ghost predicate Consistent(env: Env, topKOf: string -> int, s: State) {
    && (forall i | 0 <= i < |s.heard| ::
          s.heard[i].reply == ReplyTo(env, s.heard[i].call.input.query) && Agrees(topKOf, s.heard[i].call.cfg))
    && forall i | 0 <= i < |s.served| :: Agrees(topKOf, s.served[i].call.cfg)
  }

  lemma SameKeySameOutput(env: Env, topKOf: string -> int, h: Heard, call: Call, output: Output)
    requires ClassifiesByKey(env) && Yields(env, h, KeyOf(env, call), output)
    requires h.reply == ReplyTo(env, h.call.input.query) && Agrees(topKOf, h.call.cfg) && Agrees(topKOf, call.cfg)
    ensures Classify(ReplyTo(env, call.input.query), call.cfg.topK) == Usable(output)
  {
    assert h.call.cfg.policyVersion == call.cfg.policyVersion && ReplyTo(env, call.input.query) == h.reply;
    SameKept(h.reply, h.call.cfg.topK, call.cfg.topK);
  }

  /** With such a classifier every request is answered as without the cache, however requests overlap. */
  lemma InterleavedTransparent(env: Env, topKOf: string -> int, steps: seq<Step>, i: nat)
    requires ClassifiesByKey(env) && Consistent(env, topKOf, After(env, steps)) && i < |After(env, steps).served|
    ensures var v := After(env, steps).served[i]; v.result == Uncached(v.call, ReplyTo(env, v.call.input.query))
  {
    RunKeeps(env, steps);
    var s := After(env, steps);
    var v := s.served[i];
    assert ServedOk(env, s.heard, v);
    GuardSilent(v.call);
    if v.basis.Some? {
      var k :| 0 <= k < |s.heard| && Yields(env, s.heard[k], KeyOf(env, v.call), v.basis.value);
      SameKeySameOutput(env, topKOf, s.heard[k], v.call, v.basis.value);
    }
  }

  // ---------------------------------------------------------------- what the cache is good for

  /** A reply that is not of high risk answers the requests with its key until it expires. */
  lemma StoredServes(
      env: Env, s: State, client: string, call: Call, reply: Reply, victim: string, id: nat, other: string, later: Call)
    requires HoldsCandidates(s.cache) && CacheOn(call.cfg) && CacheOn(later.cfg)
    requires Classify(reply, call.cfg.topK).Usable? && Classify(reply, call.cfg.topK).output.risk != High
    requires KeyOf(env, later) == KeyOf(env, call) && later.now < call.now + call.cfg.cacheTtl
    requires NoKeyword(later.input.query, later.cfg)
    ensures var output := Classify(reply, call.cfg.topK).output;
            var told := Replied(env, s, client, call, reply, victim);
            Begun(env, told, id, other, later) == Serve(told, other, later, Some(output), Finished(later, output))
  {
    GuardSilent(later);
  }

  ghost predicate Off(cfg: Config) {
    cfg.cacheTtl <= 0 || cfg.cacheMax <= 0
  }

  ghost predicate NothingKept(s: State) {
    s.cache == map[] && forall id | id in s.waiting :: Off(s.waiting[id].call.cfg)
  }

  lemma StepKeepsNothing(env: Env, s: State, step: Step)
    requires HoldsCandidates(s.cache) && NothingKept(s) && (step.Begin? ==> Off(step.call.cfg))
    ensures NothingKept(Apply(env, s, step))
  {
  }

  /** Without a lifetime or without room nothing is ever kept. */
  lemma {:induction false} OffKeepsNothing(env: Env, steps: seq<Step>)
    requires forall i | 0 <= i < |steps| && steps[i].Begin? :: Off(steps[i].call.cfg)
    ensures NothingKept(After(env, steps))
  {
    if steps != [] {
      var n := |steps| - 1;
      OffKeepsNothing(env, steps[..n]);
      StepKeepsNothing(env, After(env, steps[..n]), steps[n]);
    }
  }

  ghost predicate NoneHigh(cache: Cache) {
    forall key | key in cache :: cache[key].output.risk != High
  }

  lemma StepKeepsNoneHigh(env: Env, s: State, step: Step)
    requires HoldsCandidates(s.cache) && NoneHigh(s.cache)
    ensures NoneHigh(Apply(env, s, step).cache)
  {
  }

  /** An output of high risk is never kept. */
  lemma {:induction false} HighRiskNeverCached(env: Env, steps: seq<Step>)
    ensures NoneHigh(After(env, steps).cache)
  {
    if steps != [] {
      var n := |steps| - 1;
      HighRiskNeverCached(env, steps[..n]);
      StepKeepsNoneHigh(env, After(env, steps[..n]), steps[n]);
    }
  }

  // ---------------------------------------------------------------- size

  ghost predicate StepFits(env: Env, s: State, step: Step, max: nat) {
    match step
    case Begin(_, _, call) => call.cfg.cacheMax <= max
    case Finish(id, reply, _, victim) =>
      id in s.waiting ==>
        var call := s.waiting[id].call;
        var classified := Classify(reply, call.cfg.topK);
        classified.Usable? && Evicts(s.cache, KeyOf(env, call), classified.output, call.cfg) ==> victim in s.cache
  }

  /** All limits are within `max`, and an entry that has to go is one of the cache. */
  ghost predicate AllFit(env: Env, steps: seq<Step>, max: nat) {
    steps == [] ||
    var n := |steps| - 1;
    AllFit(env, steps[..n], max) && StepFits(env, After(env, steps[..n]), steps[n], max)
  }

  ghost predicate Small(s: State, max: nat) {
    |s.cache| <= max && forall id | id in s.waiting :: s.waiting[id].call.cfg.cacheMax <= max
  }

  lemma BegunSmall(env: Env, s: State, id: nat, client: string, call: Call, max: nat)
    requires HoldsCandidates(s.cache) && Small(s, max) && call.cfg.cacheMax <= max
    ensures Small(Begun(env, s, id, client, call), max)
  {
    DroppedSize(s.cache, KeyOf(env, call), call.cfg, call.now);
  }

  lemma RepliedSmall(env: Env, s: State, client: string, call: Call, reply: Reply, victim: string, max: nat)
    requires HoldsCandidates(s.cache) && Small(s, max) && call.cfg.cacheMax <= max
    requires var classified := Classify(reply, call.cfg.topK);
             classified.Usable? && Evicts(s.cache, KeyOf(env, call), classified.output, call.cfg) ==> victim in s.cache
    ensures Small(Replied(env, s, client, call, reply, victim), max)
  {
    var classified := Classify(reply, call.cfg.topK);
    if classified.Usable? {
      StoredSize(s.cache, KeyOf(env, call), classified.output, call.cfg, call.now, victim, max);
    }
  }

  lemma StepSmall(env: Env, s: State, step: Step, max: nat)
    requires HoldsCandidates(s.cache) && Small(s, max) && StepFits(env, s, step, max)
    ensures Small(Apply(env, s, step), max)
  {
    match step
    case Begin(id, client, call) => BegunSmall(env, s, id, client, call, max);
    case Finish(id, reply, now, victim) =>
      if id in s.waiting {
        var w := s.waiting[id];
        RepliedSmall(env, s.(waiting := s.waiting - {id}), w.client, w.call.(now := now), reply, victim, max);
      }
  }

  /** However requests overlap, the cache never holds more than the largest configured number of entries. */
  lemma {:induction false} InterleavedBounded(env: Env, steps: seq<Step>, max: nat)
    requires AllFit(env, steps, max)
    ensures Small(After(env, steps), max)
  {
    if steps != [] {
      var n := |steps| - 1;
      InterleavedBounded(env, steps[..n], max);
      StepSmall(env, After(env, steps[..n]), steps[n], max);
    }
  }
}

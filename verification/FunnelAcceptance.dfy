/** When the funnel routes a request by itself, and how often it asks back. */
module FunnelAcceptance {
  import opened Text
  import opened Funnel
  import Sorting

  // ---------------------------------------------------------------- what the classifier's candidates become

  lemma SureOrder()
    ensures Sorting.Ordering(AtLeastAsSure)
  {
  }

  lemma TidyInto(cs: seq<Candidate>, c: Candidate)
    requires c in TidyAll(cs)
    ensures exists i | 0 <= i < |cs| :: c == Tidy(cs[i])
  {
    var i :| 0 <= i < |cs| && TidyAll(cs)[i] == c;
    assert c == Tidy(cs[i]);
  }

  /** Every ranked candidate is an offered one. */
  lemma RankedFrom(cs: seq<Candidate>, i: nat)
    requires i < |cs|
    ensures exists j | 0 <= j < |cs| :: Ranked(cs)[i] == Tidy(cs[j])
  {
    Sorting.SortByPermutes(AtLeastAsSure, TidyAll(cs));
    Sorting.InPermutation(Ranked(cs), TidyAll(cs), Ranked(cs)[i]);
    TidyInto(cs, Ranked(cs)[i]);
  }

  /** Every offered candidate has a rank. */
  lemma RankOf(cs: seq<Candidate>, j: nat) returns (i: nat)
    requires j < |cs|
    ensures i < |cs| && Ranked(cs)[i] == Tidy(cs[j])
  {
    Sorting.SortByPermutes(AtLeastAsSure, TidyAll(cs));
    Sorting.InPermutation(TidyAll(cs), Ranked(cs), TidyAll(cs)[j]);
    i :| 0 <= i < |cs| && Ranked(cs)[i] == Tidy(cs[j]);
  }

  lemma RankedDescends(cs: seq<Candidate>, i: nat, j: nat)
    requires i <= j < |cs|
    ensures Ranked(cs)[i].confidence >= Ranked(cs)[j].confidence
  {
    SureOrder();
    Sorting.SortBySorted(AtLeastAsSure, TidyAll(cs));
    if i < j {
      assert AtLeastAsSure(Ranked(cs)[i], Ranked(cs)[j]);
    }
  }

  lemma KeptSupported(raw: RawOutput, topK: int, i: nat)
    requires CheckRaw(raw, topK).Usable? && i < |CheckRaw(raw, topK).output.candidates|
    ensures Supported(CheckRaw(raw, topK).output.candidates[i])
  {
    RankedFrom(Offered(raw), i);
  }

  lemma ReplySupported(reply: Reply, topK: int, i: nat)
    requires Classify(reply, topK).Usable? && i < |Classify(reply, topK).output.candidates|
    ensures Supported(Classify(reply, topK).output.candidates[i])
  {
    KeptSupported(reply.raw, topK, i);
  }

  // ---------------------------------------------------------------- acceptance

  /** The request leaves the funnel routed by its last layer. */
  predicate Accepted(r: RouteResult) {
    r.source == LayerThree && r.decision != Confirm
  }

  predicate NoKeyword(query: string, cfg: Config) {
    var q := GuardQuery(query);
    !ContainsAny(q, cfg.injectionKeywords) && !ContainsAny(q, cfg.riskKeywords) && !MatchesRule(q, cfg.incidentKeywords)
  }

  /** The candidate the last layer judges, context lift included. */
  function Chosen(call: Call, output: Output): Candidate
    requires output.candidates != []
  {
    Effective(SelectionFor(call, output), call.cfg)
  }

  ghost predicate AheadOf(c: Candidate, others: seq<Candidate>, margin: real) {
    forall i | 0 <= i < |others| :: others[i].intent != c.intent ==> c.confidence - others[i].confidence >= margin
  }

  ghost predicate AllAnswered(slots: seq<string>, answer: Option<Answer>) {
    forall s | s in slots :: s == AnsweredSlot(slots, answer)
  }

  predicate BoundForIncident(call: Call, intent: Intent) {
    call.diagnosis || intent == IncidentDiagnosis || intent == IncidentFollowup
  }

  ghost predicate Clears(call: Call, output: Output)
    requires output.candidates != []
  {
    var c := Chosen(call, output);
    && output.risk != High
    && !Blocking(SelectionFor(call, output).reason)
    && Routable(c.intent)
    && c.confidence >= call.cfg.acceptAt
    && AheadOf(c, output.candidates, call.cfg.margin)
    && (|output.candidates| > 1 ==> c.confidence >= call.cfg.margin)
    && (BoundForIncident(call, c.intent) ==> ConcreteStrategy(call.strategy, output.strategy) in call.cfg.allowed)
  }

  ghost predicate AcceptableOutput(call: Call, output: Output) {
    && NoKeyword(call.input.query, call.cfg)
    && !HasStateChanged(call.input)
    && AllAnswered(output.slots, call.input.answer)
    && output.candidates != [] && Clears(call, output)
  }

  ghost predicate Acceptable(call: Call, reply: Reply) {
    var classified := Classify(reply, call.cfg.topK);
    classified.Usable? && AcceptableOutput(call, classified.output)
  }

  lemma EffectiveIntent(call: Call, output: Output)
    requires output.candidates != []
    ensures exists i | 0 <= i < |output.candidates| :: output.candidates[i].intent == Chosen(call, output).intent
  {
    var c := SelectionFor(call, output).candidate;
    var i :| 0 <= i < |output.candidates| && output.candidates[i] == c;
    assert output.candidates[i].intent == Chosen(call, output).intent;
  }

  lemma MarginIsAhead(c: Candidate, cs: seq<Candidate>, margin: real)
    ensures c.confidence - RunnerUp(cs, c.intent) >= margin <==> AheadOf(c, cs, margin) && c.confidence >= margin
  {
    var m := RunnerUp(cs, c.intent);
    if AheadOf(c, cs, margin) && c.confidence >= margin && m != 0.0 {
      var i :| 0 <= i < |cs| && cs[i].intent != c.intent && cs[i].confidence == m;
      assert c.confidence - cs[i].confidence >= margin;
    }
  }

  /** The slots left after the answer are none exactly when the answer covers each. */
  lemma AnsweredAll(output: Output, answer: Option<Answer>)
    requires "" !in output.slots
    ensures WithAnswer(output, answer).slots == [] <==> AllAnswered(output.slots, answer)
  {
    var slot := AnsweredSlot(output.slots, answer);
    var left := WithAnswer(output, answer).slots;
    if left != [] {
      assert left[0] in output.slots;
    } else if slot == "" {
      assert output.slots == [];
    } else {
      forall s | s in output.slots ensures s == slot {
        assert s != slot ==> s in Without(output.slots, slot);
      }
    }
  }

  lemma OneIsAhead(c: Candidate, cs: seq<Candidate>, margin: real)
    requires |cs| == 1 && cs[0].intent == c.intent
    ensures AheadOf(c, cs, margin)
  {
  }

  lemma MarginTest(c: Candidate, cs: seq<Candidate>, margin: real, i: nat)
    requires i < |cs| && cs[i].intent == c.intent
    ensures |cs| == 1 || c.confidence - RunnerUp(cs, c.intent) >= margin <==>
            AheadOf(c, cs, margin) && (|cs| > 1 ==> c.confidence >= margin)
  {
    MarginIsAhead(c, cs, margin);
    if |cs| == 1 {
      OneIsAhead(c, cs, margin);
    }
  }

  predicate Routable(intent: Intent) {
    !intent.Unsupported? && intent != ActionRequest && intent != OutOfScope
  }

  lemma RouteAccepts(call: Call, output: Output, c: Candidate)
    requires !c.intent.Unsupported?
    ensures Route(c, output, call.diagnosis, call.strategy, call.cfg).decision != Confirm <==>
            && output.risk != High && Routable(c.intent)
            && c.confidence >= call.cfg.acceptAt && output.slots == []
            && (|output.candidates| <= 1 || c.confidence - RunnerUp(output.candidates, c.intent) >= call.cfg.margin)
            && (BoundForIncident(call, c.intent) ==> ConcreteStrategy(call.strategy, output.strategy) in call.cfg.allowed)
  {
  }

  lemma JudgedIsRoute(call: Call, output: Output, sel: Selection)
    requires output.candidates != []
    ensures var route := Route(Effective(sel, call.cfg), output, call.diagnosis, call.strategy, call.cfg);
            && (Accepted(Judged(call, output, sel)) <==> !Blocking(sel.reason) && route.decision != Confirm)
            && (Accepted(Judged(call, output, sel)) ==> Judged(call, output, sel) == route)
  {
  }

  lemma DecidedAccepts(call: Call, output: Output)
    requires output.candidates != [] && !Chosen(call, output).intent.Unsupported?
    ensures Accepted(Decided(call, output)) <==> output.slots == [] && Clears(call, output)
  {
    var c := Chosen(call, output);
    RouteAccepts(call, output, c);
    JudgedIsRoute(call, output, SelectionFor(call, output));
    EffectiveIntent(call, output);
    var i :| 0 <= i < |output.candidates| && output.candidates[i].intent == c.intent;
    MarginTest(c, output.candidates, call.cfg.margin, i);
  }

  lemma ChosenSupported(call: Call, reply: Reply)
    requires Classify(reply, call.cfg.topK).Usable?
    ensures !Chosen(call, Classify(reply, call.cfg.topK).output).intent.Unsupported?
  {
    var output := Classify(reply, call.cfg.topK).output;
    EffectiveIntent(call, output);
    var i :| 0 <= i < |output.candidates| && output.candidates[i].intent == Chosen(call, output).intent;
    ReplySupported(reply, call.cfg.topK, i);
  }

  lemma ClassifiedSlots(reply: Reply, topK: int)
    requires Classify(reply, topK).Usable?
    ensures "" !in Classify(reply, topK).output.slots
  {
    CodesDistinct(reply.raw.slots);
  }

  /** The answer touches nothing the last layer's other conditions look at. */
  lemma AnswerKeepsVerdict(call: Call, output: Output)
    requires output.candidates != []
    ensures var answered := WithAnswer(output, call.input.answer);
            Chosen(call, answered) == Chosen(call, output) && (Clears(call, answered) <==> Clears(call, output))
  {
  }

  lemma GuardSilent(call: Call)
    ensures Guard(call.input.query, call.strategy, call.cfg).None? <==> NoKeyword(call.input.query, call.cfg)
    ensures Guard(call.input.query, call.strategy, call.cfg).Some? ==>
              !Accepted(Guard(call.input.query, call.strategy, call.cfg).value)
  {
  }

  lemma ClarifyRefuses(call: Call, output: Output)
    requires output.candidates != []
    ensures !Accepted(Clarify(call.input, output, call.cfg, StateChanged, call.now))
  {
  }

  lemma FinishedAccepts(call: Call, output: Output)
    requires output.candidates != [] && "" !in output.slots && !Chosen(call, output).intent.Unsupported?
    ensures Accepted(Finished(call, output)) <==>
            !HasStateChanged(call.input) && AllAnswered(output.slots, call.input.answer) && Clears(call, output)
  {
    var answered := WithAnswer(output, call.input.answer);
    AnswerKeepsVerdict(call, output);
    AnsweredAll(output, call.input.answer);
    DecidedAccepts(call, answered);
    ClarifyRefuses(call, output);
  }

  /** A layer-three acceptance happens exactly when every condition holds. */
  lemma AcceptedExactly(call: Call, reply: Reply)
    ensures Accepted(Uncached(call, reply)) <==> Acceptable(call, reply)
  {
    GuardSilent(call);
    var classified := Classify(reply, call.cfg.topK);
    if classified.Usable? {
      ClassifiedSlots(reply, call.cfg.topK);
      ChosenSupported(call, reply);
      FinishedAccepts(call, classified.output);
    }
  }

  lemma RouteCarries(call: Call, output: Output, c: Candidate)
    requires Route(c, output, call.diagnosis, call.strategy, call.cfg).decision != Confirm && !output.risk.Unset?
    ensures Carries(call, output, c, Route(c, output, call.diagnosis, call.strategy, call.cfg))
  {
  }

  predicate Carries(call: Call, output: Output, c: Candidate, r: RouteResult) {
    && (r.decision == Incident <==> BoundForIncident(call, c.intent))
    && (r.decision == Incident ==> r.strategy == ConcreteStrategy(call.strategy, output.strategy))
    && (r.decision == Incident ==> r.strategy in call.cfg.allowed)
    && (r.decision == Chat ==> r.strategy == "" && (c.intent == KnowledgeQa || c.intent == ResourceQuery))
    && r.confidence == c.confidence >= call.cfg.acceptAt
    && r.missingSlots == [] && r.clarification.None? && !r.degraded
    && r.risk == output.risk != High
  }

  /** What an acceptance carries: the judged candidate's confidence, no open slot, a permitted strategy. */
  lemma FinishedCarries(call: Call, output: Output)
    requires output.candidates != [] && !output.risk.Unset? && Accepted(Finished(call, output))
    ensures Carries(call, output, Chosen(call, output), Finished(call, output))
  {
    var answered := WithAnswer(output, call.input.answer);
    AnswerKeepsVerdict(call, output);
    ClarifyRefuses(call, output);
    JudgedIsRoute(call, answered, SelectionFor(call, answered));
    RouteCarries(call, answered, Chosen(call, answered));
  }

  lemma RouteSource(call: Call, output: Output, c: Candidate)
    ensures Route(c, output, call.diagnosis, call.strategy, call.cfg).source == LayerThree
  {
  }

  lemma ClarifyConfirms(call: Call, output: Output, reason: Reason)
    requires output.candidates != []
    ensures Clarify(call.input, output, call.cfg, reason, call.now).decision == Confirm
  {
  }

  lemma JudgedSource(call: Call, output: Output, sel: Selection)
    requires output.candidates != []
    ensures Judged(call, output, sel).decision != Confirm ==> Accepted(Judged(call, output, sel))
  {
    var c := Effective(sel, call.cfg);
    RouteSource(call, output, c);
    ClarifyConfirms(call, output, Context(sel.reason));
    ClarifyConfirms(call, output, Route(c, output, call.diagnosis, call.strategy, call.cfg).reason);
  }

  /** Only the last layer's own routing is not a confirmation. */
  lemma FinishedSource(call: Call, output: Output)
    requires output.candidates != []
    ensures Finished(call, output).decision != Confirm ==> Accepted(Finished(call, output))
  {
    var answered := WithAnswer(output, call.input.answer);
    ClarifyConfirms(call, output, StateChanged);
    JudgedSource(call, answered, SelectionFor(call, answered));
  }

  // ---------------------------------------------------------------- the guard and the context

  predicate IsRisky(call: Call) {
    var q := GuardQuery(call.input.query);
    ContainsAny(q, call.cfg.injectionKeywords) || ContainsAny(q, call.cfg.riskKeywords)
  }

  /** The first layer routes by itself exactly the unrisky queries that match a rule and may use its strategy. */
  lemma GuardExactly(call: Call)
    ensures var g := Guard(call.input.query, call.strategy, call.cfg);
            var rule := !IsRisky(call) && MatchesRule(GuardQuery(call.input.query), call.cfg.incidentKeywords);
            var chosen := ConcreteStrategy(call.strategy, call.cfg.defaultStrategy);
            && (g.None? <==> !IsRisky(call) && !rule)
            && (g.Some? && g.value.decision != Confirm <==> rule && chosen in call.cfg.allowed)
            && (g.Some? && g.value.decision != Confirm ==> g.value.decision == Incident && g.value.strategy == chosen)
            && (g.Some? && g.value.risk == High <==> IsRisky(call))
            && (g.Some? ==> g.value.clarification.None? && g.value.missingSlots == [])
            && (g.Some? && rule && chosen in call.cfg.allowed ==> !g.value.degraded && g.value.confidence == 1.0 && g.value.risk == Low)
            && (g.Some? && IsRisky(call) ==>
                  (g.value.degraded <==> ContainsAny(GuardQuery(call.input.query), call.cfg.injectionKeywords)))
  {
  }

  ghost predicate UsableContext(call: Call) {
    && call.input.context.Some?
    && var snap := call.input.context.value;
       snap.stateVersion != "" && snap.updatedAt.Some?
       && (call.cfg.contextTtl > 0 ==> call.now - snap.updatedAt.value <= call.cfg.contextTtl)
  }

  lemma SelectedForContext(query: string, cs: seq<Candidate>, snap: Snapshot, ttl: int, now: int)
    requires cs != []
    ensures var sel := Select(query, cs, Some(snap), ttl, now);
            !Blocking(sel.reason) ==>
              if sel.contextUsed then
                && snap.stateVersion != "" && snap.updatedAt.Some? && (ttl > 0 ==> now - snap.updatedAt.value <= ttl)
                && snap.activeIncident != "" && IsElliptical(query) && !HasTopicSwitch(query)
                && sel.candidate.intent == IncidentFollowup
              else sel.candidate == cs[0]
  {
  }

  /**
   * Context changes the choice only for a short question about an incident that is under
   * way, and then the choice is a follow-up; in every other case the strongest candidate is
   * judged as the classifier rated it.
   */
  lemma ContextOnlyForFollowups(call: Call, output: Output)
    requires output.candidates != [] && !Blocking(SelectionFor(call, output).reason)
    ensures var sel := SelectionFor(call, output);
            if sel.contextUsed then
              && UsableContext(call) && call.input.context.value.activeIncident != "" && IsElliptical(call.input.query)
              && !HasTopicSwitch(call.input.query) && sel.candidate.intent == IncidentFollowup
            else sel.candidate == output.candidates[0] && Chosen(call, output) == output.candidates[0]
  {
    if call.input.context.Some? {
      SelectedForContext(call.input.query, output.candidates, call.input.context.value, call.cfg.contextTtl, call.now);
    }
  }

  lemma StrongestFirst(raw: RawOutput, topK: int, j: nat)
    requires CheckRaw(raw, topK).Usable? && j < |Offered(raw)|
    ensures CheckRaw(raw, topK).output.candidates[0].confidence >= Offered(raw)[j].confidence
  {
    var cs := Offered(raw);
    var i := RankOf(cs, j);
    RankedDescends(cs, 0, i);
    assert Take(Ranked(cs), Kept(topK))[0] == Ranked(cs)[0];
  }

  /** A chat answer rests on the strongest of all candidates the classifier offered, at its own rating. */
  lemma StrongestJudged(call: Call, raw: RawOutput, topK: int, output: Output, r: RouteResult, j: nat)
    requires CheckRaw(raw, topK) == Usable(output) && AcceptableOutput(call, output)
    requires Carries(call, output, Chosen(call, output), r) && r.decision == Chat && j < |Offered(raw)|
    ensures r.confidence >= Offered(raw)[j].confidence
  {
    ContextOnlyForFollowups(call, output);
    StrongestFirst(raw, topK, j);
  }
}

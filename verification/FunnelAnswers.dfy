/** What a request gets that the funnel does not route: a refusal, or a question, and why. */
module FunnelAnswers {
  import opened Text
  import opened Funnel
  import opened FunnelAcceptance

  // ---------------------------------------------------------------- the context's part

  ghost predicate OffersFollowup(output: Output) {
    exists i | 0 <= i < |output.candidates| :: output.candidates[i].intent == IncidentFollowup
  }

  /** The snapshot cannot be relied on, or the question cannot be placed in it. */
  ghost predicate BlockedByContext(call: Call, output: Output)
    requires output.candidates != []
  {
    var query := call.input.query;
    && call.input.context.Some? && !HasTopicSwitch(query)
    && var snap := call.input.context.value;
       || snap.stateVersion == "" || snap.updatedAt.None?
       || (call.cfg.contextTtl > 0 && call.now - snap.updatedAt.value > call.cfg.contextTtl)
       || (snap.pendingSlots != [] && IsElliptical(query))
       || Conflicts(query, snap.entities)
       || (snap.activeIncident == "" && output.candidates[0].intent == IncidentFollowup)
       || (snap.activeIncident != "" && IsElliptical(query) && !OffersFollowup(output))
  }

  lemma FollowupFound(cs: seq<Candidate>)
    ensures FirstFollowup(cs) < |cs| <==> exists i | 0 <= i < |cs| :: cs[i].intent == IncidentFollowup
  {
  }

  lemma BlockedExactly(call: Call, output: Output)
    requires output.candidates != []
    ensures Blocking(SelectionFor(call, output).reason) <==> BlockedByContext(call, output)
  {
    FollowupFound(output.candidates);
  }

  /** A short question about an incident under way. */
  predicate FollowsUp(call: Call) {
    && call.input.context.Some? && !HasTopicSwitch(call.input.query)
    && call.input.context.value.activeIncident != "" && IsElliptical(call.input.query)
  }

  /** A follow-up is judged by the first such candidate, lifted to the threshold; all else by the surest one. */
  lemma ChosenExactly(call: Call, output: Output)
    requires output.candidates != [] && !BlockedByContext(call, output)
    ensures var c := Chosen(call, output);
            if FollowsUp(call) then
              && c.confidence >= call.cfg.acceptAt
              && exists i | 0 <= i < |output.candidates| ::
                   && output.candidates[i].intent == IncidentFollowup
                   && (forall j | 0 <= j < i :: output.candidates[j].intent != IncidentFollowup)
                   && c == output.candidates[i].(confidence := c.confidence)
                   && (c.confidence == output.candidates[i].confidence || output.candidates[i].confidence < c.confidence == call.cfg.acceptAt)
            else c == output.candidates[0]
  {
    BlockedExactly(call, output);
    var i := FirstFollowup(output.candidates);
    if FollowsUp(call) {
      assert i < |output.candidates|;
      assert SelectionFor(call, output).candidate == output.candidates[i];
    }
  }

  // ---------------------------------------------------------------- how a request ends

  ghost predicate Interrupted(call: Call, output: Output)
    requires output.candidates != []
  {
    HasStateChanged(call.input) || BlockedByContext(call, output)
  }

  ghost predicate NeedsApproval(call: Call, output: Output)
    requires output.candidates != []
  {
    !Interrupted(call, output) && (output.risk == High || Chosen(call, output).intent == ActionRequest)
  }

  ghost predicate BeyondScope(call: Call, output: Output)
    requires output.candidates != []
  {
    !Interrupted(call, output) && !NeedsApproval(call, output) && Chosen(call, output).intent == OutOfScope
  }

  /** The request is one the funnel asks back about as long as it may. */
  ghost predicate Unclear(call: Call, output: Output)
    requires output.candidates != []
  {
    !AcceptableOutput(call, output) && !NeedsApproval(call, output) && !BeyondScope(call, output)
  }

  predicate RoundsLeft(call: Call) {
    var round := match call.input.answer case None => 1 case Some(answer) => answer.round + 1;
    call.cfg.maxClarifications != 0 && round <= call.cfg.maxClarifications
  }

  /** The candidate's own tests. */
  ghost predicate SureEnough(call: Call, output: Output)
    requires output.candidates != []
  {
    Chosen(call, output).confidence >= call.cfg.acceptAt
  }

  ghost predicate FarEnough(call: Call, output: Output)
    requires output.candidates != []
  {
    var c := Chosen(call, output);
    |output.candidates| > 1 ==> AheadOf(c, output.candidates, call.cfg.margin) && c.confidence >= call.cfg.margin
  }

  lemma RouteAnswers(call: Call, output: Output, c: Candidate)
    requires !c.intent.Unsupported?
    ensures var r := Route(c, output, call.diagnosis, call.strategy, call.cfg);
            var high, ahead := output.risk == High || c.intent == ActionRequest,
                |output.candidates| > 1 ==> c.confidence - RunnerUp(output.candidates, c.intent) >= call.cfg.margin;
            && r.risk == (if high then High else output.risk) && r.clarification.None?
            && r.confidence == c.confidence && r.missingSlots == output.slots && r.candidates == output.candidates
            && r.entities == output.entities
            && (r.reason == HighRisk <==> high)
            && (r.reason == Unroutable <==> !high && c.intent == OutOfScope)
            && (!high && c.intent != OutOfScope ==>
                  && (r.reason == LowConfidence <==> c.confidence < call.cfg.acceptAt)
                  && (r.reason == TooClose <==> c.confidence >= call.cfg.acceptAt && !ahead)
                  && (r.reason == SlotsMissing <==> c.confidence >= call.cfg.acceptAt && ahead && output.slots != [])
                  && (r.decision == Confirm && c.confidence >= call.cfg.acceptAt && ahead && output.slots == [] ==>
                        r.reason == StrategyUnavailable))
            && (r.reason == Passed <==> r.decision != Confirm)
  {
  }

  /** A question about the first open slot, or between chat and diagnosis if none is open; with the intents in
      question and the state and time it is good for. */
  predicate AsksWell(r: RouteResult, call: Call) {
    r.clarification.Some? ==>
      var c, slots := r.clarification.value, r.missingSlots;
      && c.missingSlots == slots
      && (c.question == ChatOrIncident <==> slots == [])
      && (c.question == WhichService <==> slots != [] && slots[0] == "service")
      && (c.question == WhichTime <==> slots != [] && slots[0] == "time_range")
      && (c.question == WhichTask <==> slots != [] && slots[0] == "task_id")
      && |c.candidates| == |r.candidates|
      && (forall i | 0 <= i < |c.candidates| :: c.candidates[i] == r.candidates[i].intent)
      && c.stateVersion == (match call.input.context case None => "" case Some(snap) => snap.stateVersion)
      && c.round == (match call.input.answer case None => 1 case Some(answer) => answer.round + 1)
      && c.expiresAt == call.now + call.cfg.contextTtl
      && c.id == (TrimSpace(call.input.query), c.stateVersion, c.round)
  }

  ghost predicate AsksAbout(r: RouteResult, call: Call, output: Output, reason: Reason)
    requires output.candidates != []
  {
    && r.decision == Confirm && r.risk == output.risk && r.confidence == output.candidates[0].confidence
    && r.candidates == output.candidates && r.entities == output.entities && r.missingSlots == output.slots
    && (r.clarification.Some? <==> RoundsLeft(call)) && AsksWell(r, call)
    && r.reason == if !RoundsLeft(call) then RoundsUsedUp else if HasStateChanged(call.input) then StateChanged else reason
  }

  lemma ClarifyAnswers(call: Call, output: Output, reason: Reason)
    requires output.candidates != []
    ensures AsksAbout(Clarify(call.input, output, call.cfg, reason, call.now), call, output, reason)
  {
  }

  lemma JudgedAnswers(call: Call, output: Output)
    requires output.candidates != [] && !HasStateChanged(call.input) && !Chosen(call, output).intent.Unsupported?
    ensures var sel, r := SelectionFor(call, output), Decided(call, output);
            var route := Route(Chosen(call, output), output, call.diagnosis, call.strategy, call.cfg);
            if Blocking(sel.reason) then AsksAbout(r, call, output, Context(sel.reason))
            else if route.decision == Confirm && route.risk != High && Chosen(call, output).intent != OutOfScope
            then AsksAbout(r, call, output, route.reason)
            else r == route
  {
    var sel := SelectionFor(call, output);
    ClarifyAnswers(call, output, Context(sel.reason));
    ClarifyAnswers(call, output, Route(Chosen(call, output), output, call.diagnosis, call.strategy, call.cfg).reason);
  }

  /** The open slots and the entities once the answer, if it counts, has been filled in. */
  ghost predicate Fills(r: RouteResult, call: Call, output: Output) {
    if HasStateChanged(call.input) then r.missingSlots == output.slots && r.entities == output.entities
    else
      && (forall s :: s in r.missingSlots <==> s in output.slots && s != AnsweredSlot(output.slots, call.input.answer))
      && r.entities == WithAnswer(output, call.input.answer).entities
  }

  /** The reason given for a question. */
  ghost predicate AsksFor(reason: Reason, call: Call, output: Output)
    requires output.candidates != []
  {
    if HasStateChanged(call.input) then reason == StateChanged
    else if BlockedByContext(call, output) then reason == Context(SelectionFor(call, output).reason)
    else if !SureEnough(call, output) then reason == LowConfidence
    else if !FarEnough(call, output) then reason == TooClose
    else if !AllAnswered(output.slots, call.input.answer) then reason == SlotsMissing
    else reason == StrategyUnavailable
  }

  lemma AnswerKeepsContext(call: Call, output: Output)
    requires output.candidates != []
    ensures var answered := WithAnswer(output, call.input.answer);
            && answered.candidates == output.candidates && answered.risk == output.risk
            && SelectionFor(call, answered) == SelectionFor(call, output) && Chosen(call, answered) == Chosen(call, output)
  {
  }

  lemma SlotsLeft(output: Output, answer: Option<Answer>)
    requires "" !in output.slots
    ensures forall s :: s in WithAnswer(output, answer).slots <==> s in output.slots && s != AnsweredSlot(output.slots, answer)
  {
  }

  /** All that a request can tell from the result it gets for a checked output. */
  ghost predicate EndsAs(r: RouteResult, call: Call, output: Output)
    requires output.candidates != []
  {
    && (r.decision == Confirm <==> !AcceptableOutput(call, output))
    && r.risk == (if NeedsApproval(call, output) then High else output.risk)
    && (r.clarification.Some? <==> Unclear(call, output) && RoundsLeft(call))
    && (r.reason == RoundsUsedUp <==> Unclear(call, output) && !RoundsLeft(call))
    && (r.reason == HighRisk <==> NeedsApproval(call, output))
    && (r.reason == Unroutable <==> BeyondScope(call, output))
    && (r.reason == Passed <==> AcceptableOutput(call, output))
    && (r.clarification.Some? ==> AsksFor(r.reason, call, output)) && AsksWell(r, call)
    && r.confidence == (if Unclear(call, output) then output.candidates[0] else Chosen(call, output)).confidence
  }

  lemma ChangedEnds(call: Call, output: Output)
    requires output.candidates != [] && HasStateChanged(call.input)
    ensures EndsAs(Finished(call, output), call, output) && Fills(Finished(call, output), call, output)
  {
    ClarifyAnswers(call, output, StateChanged);
  }

  lemma BlockedEnds(call: Call, output: Output)
    requires output.candidates != [] && !HasStateChanged(call.input) && BlockedByContext(call, output)
    requires !Chosen(call, output).intent.Unsupported?
    ensures EndsAs(Decided(call, WithAnswer(output, call.input.answer)), call, output)
  {
    BlockedExactly(call, output);
    AnswerKeepsContext(call, output);
    JudgedAnswers(call, WithAnswer(output, call.input.answer));
  }

  /** The last layer's tests, as `Clears` has them. */
  lemma ClearsTests(call: Call, output: Output)
    requires output.candidates != [] && !BlockedByContext(call, output) && !Chosen(call, output).intent.Unsupported?
    ensures Clears(call, output) <==>
            && output.risk != High && Routable(Chosen(call, output).intent)
            && SureEnough(call, output) && FarEnough(call, output)
            && (BoundForIncident(call, Chosen(call, output).intent) ==>
                  ConcreteStrategy(call.strategy, output.strategy) in call.cfg.allowed)
    ensures |output.candidates| > 1 ==> (FarEnough(call, output) <==>
              Chosen(call, output).confidence - RunnerUp(output.candidates, Chosen(call, output).intent) >= call.cfg.margin)
    ensures |output.candidates| <= 1 ==> FarEnough(call, output)
  {
    BlockedExactly(call, output);
    EffectiveIntent(call, output);
    var i :| 0 <= i < |output.candidates| && output.candidates[i].intent == Chosen(call, output).intent;
    MarginTest(Chosen(call, output), output.candidates, call.cfg.margin, i);
  }

  /** The routing tests, on the output whose slots have been answered, in terms of the output itself. */
  lemma RouteEnds(call: Call, output: Output)
    requires output.candidates != [] && "" !in output.slots && NoKeyword(call.input.query, call.cfg)
    requires !HasStateChanged(call.input) && !BlockedByContext(call, output) && !Chosen(call, output).intent.Unsupported?
    ensures var route := Route(Chosen(call, output), WithAnswer(output, call.input.answer), call.diagnosis, call.strategy, call.cfg);
            && (route.decision == Confirm <==> !AcceptableOutput(call, output))
            && (route.reason == HighRisk <==> NeedsApproval(call, output))
            && (route.reason == Unroutable <==> BeyondScope(call, output))
            && (Unclear(call, output) ==> AsksFor(route.reason, call, output))
            && (route.reason == Passed <==> AcceptableOutput(call, output))
  {
    var answered, c := WithAnswer(output, call.input.answer), Chosen(call, output);
    AnswerKeepsContext(call, output);
    BlockedExactly(call, output);
    AnsweredAll(output, call.input.answer);
    ClearsTests(call, output);
    RouteAnswers(call, answered, c);
    RouteAccepts(call, answered, c);
  }

  lemma JudgedEnds(call: Call, output: Output)
    requires output.candidates != [] && "" !in output.slots && NoKeyword(call.input.query, call.cfg)
    requires !HasStateChanged(call.input) && !BlockedByContext(call, output) && !Chosen(call, output).intent.Unsupported?
    ensures EndsAs(Decided(call, WithAnswer(output, call.input.answer)), call, output)
  {
    var answered := WithAnswer(output, call.input.answer);
    BlockedExactly(call, output);
    AnswerKeepsContext(call, output);
    RouteEnds(call, output);
    RouteAnswers(call, answered, Chosen(call, output));
    JudgedAnswers(call, answered);
  }

  lemma DecidedFills(call: Call, output: Output)
    requires output.candidates != [] && "" !in output.slots && !HasStateChanged(call.input)
    requires !Chosen(call, output).intent.Unsupported?
    ensures Fills(Decided(call, WithAnswer(output, call.input.answer)), call, output)
  {
    var answered := WithAnswer(output, call.input.answer);
    AnswerKeepsContext(call, output);
    SlotsLeft(output, call.input.answer);
    JudgedAnswers(call, answered);
    RouteAnswers(call, answered, Chosen(call, output));
  }

  /** Every request that reaches the last layer ends in this way. */
  lemma FinishedAnswers(call: Call, output: Output)
    requires output.candidates != [] && "" !in output.slots && NoKeyword(call.input.query, call.cfg)
    requires !Chosen(call, output).intent.Unsupported?
    ensures EndsAs(Finished(call, output), call, output) && Fills(Finished(call, output), call, output)
  {
    if HasStateChanged(call.input) {
      ChangedEnds(call, output);
    } else {
      DecidedFills(call, output);
      if BlockedByContext(call, output) {
        BlockedEnds(call, output);
      } else {
        JudgedEnds(call, output);
      }
    }
  }
}

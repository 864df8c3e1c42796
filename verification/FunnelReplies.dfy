/** What the funnel makes of a classifier's reply and of a client's answer to a question. */
module FunnelReplies {
  import opened Text
  import opened Funnel
  import opened FunnelAcceptance
  import Sorting

  // ---------------------------------------------------------------- codes and entities

  function AllCodes(values: seq<string>): (r: seq<string>)
    ensures |r| == |values|
    ensures forall i | 0 <= i < |values| :: r[i] == Code(values[i])
  {
    seq(|values|, i requires 0 <= i < |values| => Code(values[i]))
  }

  /** The codes are those of the values, blank ones apart. */
  lemma {:induction false} CodesExactly(values: seq<string>, code: string)
    ensures code in Codes(values) <==> code != "" && code in AllCodes(values)
  {
    if values != [] {
      var n := |values| - 1;
      CodesExactly(values[..n], code);
      AllCodesSnoc(values);
      AddedCode(Codes(values[..n]), values[n], code);
    }
  }

  lemma AllCodesSnoc(values: seq<string>)
    requires values != []
    ensures AllCodes(values) == AllCodes(values[..|values| - 1]) + [Code(values[|values| - 1])]
  {
  }

  lemma AddedCode(codes: seq<string>, value: string, code: string)
    ensures code in AddCode(codes, value) <==> code in codes || (code != "" && code == Code(value))
  {
  }

  /** The pair names this entity, and has a value for it. */
  predicate Gives(pair: (string, string), key: string) {
    (key == "service" || key == "task_id" || key == "time_range") && Code(pair.0) == key && TrimSpace(pair.1) != ""
  }

  /** The value an entity gets: that of the last pair that gives one. */
  function LastGiven(pairs: seq<(string, string)>, key: string): Option<string> {
    if pairs == [] then None
    else
      var n := |pairs| - 1;
      if Gives(pairs[n], key) then Some(TrimSpace(pairs[n].1)) else LastGiven(pairs[..n], key)
  }

  /** An entity is one of the three the router knows; its value is the last one given, without surrounding space. */
  lemma {:induction false} EntitiesExactly(pairs: seq<(string, string)>, key: string)
    ensures LastGiven(pairs, key) == if key in Entities(pairs) then Some(Entities(pairs)[key]) else None
  {
    if pairs != [] {
      EntitiesExactly(pairs[..|pairs| - 1], key);
    }
  }

  // ---------------------------------------------------------------- replies

  /** A candidate with a known intent and a confidence between 0 and 1. */
  predicate Wellformed(c: Candidate) {
    !c.intent.Unsupported? && c.confidence >= 0.0 && c.confidence <= 1.0
  }

  /** A reply is usable if it decodes, has candidates that are all well-formed or at least one of the two
      old intents with such a confidence, and no unknown risk. */
  lemma UsableExactly(reply: Reply, topK: int)
    ensures Classify(reply, topK).Usable? <==>
            && reply.Decoded? && !reply.raw.risk.UnsupportedRisk?
            && if reply.raw.candidates != [] then forall i | 0 <= i < |reply.raw.candidates| :: Wellformed(reply.raw.candidates[i])
               else 0.0 <= reply.raw.confidence <= 1.0
                    && (TrimSpace(reply.raw.intent) == "chat" || TrimSpace(reply.raw.intent) == "incident")
  {
    if reply.Decoded? && reply.raw.candidates != [] {
      assert Offered(reply.raw) == reply.raw.candidates;
      if forall i | 0 <= i < |reply.raw.candidates| :: Wellformed(reply.raw.candidates[i]) {
        assert forall i | 0 <= i < |Offered(reply.raw)| :: Supported(Offered(reply.raw)[i]);
      }
      if forall i | 0 <= i < |Offered(reply.raw)| :: Supported(Offered(reply.raw)[i]) {
        assert forall i | 0 <= i < |reply.raw.candidates| :: Supported(reply.raw.candidates[i]);
      }
    } else if reply.Decoded? && Offered(reply.raw) != [] {
      assert Supported(Offered(reply.raw)[0]) <==> 0.0 <= reply.raw.confidence <= 1.0;
    }
  }

  /** A reply of the old form stands for its one intent. */
  lemma OldReply(raw: RawOutput)
    requires raw.candidates == []
    ensures TrimSpace(raw.intent) == "chat" ==>
              |Offered(raw)| == 1 && Offered(raw)[0].intent == KnowledgeQa && Offered(raw)[0].confidence == raw.confidence
    ensures TrimSpace(raw.intent) == "incident" ==>
              |Offered(raw)| == 1 && Offered(raw)[0].intent == IncidentDiagnosis && Offered(raw)[0].confidence == raw.confidence
    ensures TrimSpace(raw.intent) != "chat" && TrimSpace(raw.intent) != "incident" ==> Offered(raw) == []
  {
  }

  /** The same candidate but for its reasons, which are the codes of the offered ones. */
  ghost predicate TidiedFrom(kept: Candidate, offered: Candidate) {
    && kept.intent == offered.intent && kept.confidence == offered.confidence
    && forall code: string :: code in kept.reasons <==> code != "" && code in AllCodes(offered.reasons)
  }

  lemma TidyKeeps(c: Candidate)
    ensures TidiedFrom(Tidy(c), c)
  {
    forall code: string
      ensures code in Tidy(c).reasons <==> code != "" && code in AllCodes(c.reasons)
    {
      CodesExactly(c.reasons, code);
    }
  }

  ghost predicate Comes(kept: Candidate, offered: seq<Candidate>) {
    exists j | 0 <= j < |offered| :: TidiedFrom(kept, offered[j])
  }

  lemma RankedTidied(cs: seq<Candidate>, i: nat)
    requires i < |cs|
    ensures Comes(Ranked(cs)[i], cs)
  {
    RankedFrom(cs, i);
    var j :| 0 <= j < |cs| && Ranked(cs)[i] == Tidy(cs[j]);
    TidyKeeps(cs[j]);
    assert TidiedFrom(Ranked(cs)[i], cs[j]);
  }

  /** What is kept: the surest candidates, as many as the limit (two if there is none), surest first. */
  lemma KeptExactly(raw: RawOutput, topK: int, output: Output)
    requires CheckRaw(raw, topK) == Usable(output)
    ensures var limit := if topK > 0 then topK else 2;
            |output.candidates| == if |Offered(raw)| < limit then |Offered(raw)| else limit
    ensures forall i, j | 0 <= i <= j < |output.candidates| :: output.candidates[i].confidence >= output.candidates[j].confidence
    ensures forall i | 0 <= i < |output.candidates| :: Comes(output.candidates[i], Offered(raw))
    ensures output.strategy == raw.strategy && output.risk == (if raw.risk.Unset? then Low else raw.risk)
  {
    var cs := Offered(raw);
    forall i, j | 0 <= i <= j < |output.candidates| ensures output.candidates[i].confidence >= output.candidates[j].confidence {
      RankedDescends(cs, i, j);
    }
    forall i | 0 <= i < |output.candidates| ensures Comes(output.candidates[i], cs) {
      RankedTidied(cs, i);
      assert output.candidates[i] == Ranked(cs)[i];
    }
  }

  // ---------------------------------------------------------------- answers

  /** The slot an answer fills: the one it names, or the only open one. */
  lemma AnsweredSlotExactly(slots: seq<string>, answer: Option<Answer>)
    ensures AnsweredSlot(slots, answer) ==
            if answer.Some? && TrimSpace(answer.value.value) != "" then
              if Code(answer.value.slot) != "" then Code(answer.value.slot) else if |slots| == 1 then slots[0] else ""
            else ""
  {
  }

  lemma SlotEntity(entities: map<string, string>, slot: string, value: string)
    requires Code(slot) == slot && TrimSpace(value) != ""
    ensures AnsweredEntities(entities, slot, value) == if AllowedEntity(slot) then entities[slot := TrimSpace(value)] else entities
  {
    assert slot in AddEntity(map[], slot, value) <==> AllowedEntity(slot);
  }

  /** An answer adds its entity, if the slot is one of those, and leaves all others alone. */
  lemma AnswerGivesEntity(output: Output, answer: Option<Answer>, key: string)
    requires forall i | 0 <= i < |output.slots| :: Code(output.slots[i]) == output.slots[i]
    ensures var slot, entities := AnsweredSlot(output.slots, answer), WithAnswer(output, answer).entities;
            if slot != "" && key == slot && (slot == "service" || slot == "task_id" || slot == "time_range")
            then key in entities && entities[key] == TrimSpace(answer.value.value)
            else (key in entities <==> key in output.entities) && (key in entities ==> entities[key] == output.entities[key])
  {
    var slot := AnsweredSlot(output.slots, answer);
    if slot != "" {
      CodeIdempotent(answer.value.slot);
      assert Code(slot) == slot && TrimSpace(answer.value.value) != "";
      SlotEntity(output.entities, slot, answer.value.value);
    }
  }

  /** An answer is out of date if it names a version of the state that is not the current one. */
  lemma StateChangedExactly(input: Input)
    ensures HasStateChanged(input) <==>
            match (input.answer, input.context)
            case (Some(answer), Some(snap)) => answer.stateVersion !in {"", snap.stateVersion}
            case _ => false
  {
  }

  // ---------------------------------------------------------------- questions

  /** At most twelve characters, or one of the phrases that refer back. */
  lemma EllipticalExactly(query: string)
    ensures IsElliptical(query) <==>
            |TrimSpace(query)| <= 12 || exists k | 0 <= k < |ELLIPSES| :: Contains(Lower(TrimSpace(query)), ELLIPSES[k])
  {
    ContainsAnyExactly(Lower(TrimSpace(query)), ELLIPSES);
  }

  lemma TopicSwitchExactly(query: string)
    ensures HasTopicSwitch(query) <==>
            exists k | 0 <= k < |TOPIC_SWITCHES| :: Contains(Lower(TrimSpace(query)), TOPIC_SWITCHES[k])
  {
    ContainsAnyExactly(Lower(TrimSpace(query)), TOPIC_SWITCHES);
  }

  /** Another service is asked for than the confirmed one, which is not mentioned. */
  lemma ConflictsExactly(query: string, entities: map<string, string>)
    ensures Conflicts(query, entities) <==>
            && "service" in entities && Lower(TrimSpace(entities["service"])) != ""
            && !Contains(Lower(query), Lower(TrimSpace(entities["service"])))
            && exists k | 0 <= k < |OTHER_SERVICE| :: Contains(Lower(query), OTHER_SERVICE[k])
  {
    ContainsAnyExactly(Lower(query), OTHER_SERVICE);
  }
}

/** Whether an accepted candidate is ahead of everything the classifier offered, the candidates cut off included. */
module FunnelMargin {
  import opened Text
  import opened Funnel
  import opened FunnelAcceptance
  import Sorting

  /** The ranges the configuration is read with. */
  ghost predicate Loaded(cfg: Config) {
    0.0 < cfg.acceptAt <= 1.0 && 0.0 <= cfg.margin <= 1.0
  }

  /** However the funnel is configured and asked, an acceptance of this output keeps the margin over the reply. */
  ghost predicate MarginKept(raw: RawOutput, output: Output)
    requires output.candidates != []
  {
    forall call: Call | Loaded(call.cfg) && AcceptableOutput(call, output) ::
      AheadOf(Chosen(call, output), Offered(raw), call.cfg.margin)
  }

  ghost predicate Alike(cs: seq<Candidate>) {
    forall i, j | 0 <= i < |cs| && 0 <= j < |cs| :: cs[i].intent == cs[j].intent
  }

  /** Some request gets past everything but the candidates' own tests. */
  predicate Answerable(output: Output) {
    output.risk != High && |output.slots| <= 1
  }

  /** The margin test has nothing to measure the best candidate against, and `other` is not harmless. */
  predicate Unopposed(kept: seq<Candidate>, other: Candidate)
    requires kept != []
  {
    && other.intent != kept[0].intent
    && if |kept| > 1 then other.confidence > 0.0
       else
         && (kept[0].confidence > 0.0 || kept[0].intent == IncidentFollowup)
         && (kept[0].confidence < 1.0 || other.confidence > 0.0)
  }

  /** All candidates kept have one and the same routable intent, and a different one was cut off. */
  ghost predicate Leaky(raw: RawOutput, output: Output)
    requires output.candidates != []
  {
    && Answerable(output) && Alike(output.candidates) && Routable(output.candidates[0].intent)
    && exists j | 0 <= j < |Offered(raw)| :: Unopposed(output.candidates, Offered(raw)[j])
  }

  // ---------------------------------------------------------------- where the margin is kept

  lemma KeptAre(raw: RawOutput, topK: int, output: Output)
    requires CheckRaw(raw, topK) == Usable(output)
    ensures output.candidates == Take(Ranked(Offered(raw)), Kept(topK)) != []
    ensures Sorting.Distinct(output.slots)
  {
    CodesDistinct(raw.slots);
  }

  /** Whatever the classifier offered was kept or is no surer than anything kept. */
  lemma KeptOrWeaker(raw: RawOutput, topK: int, output: Output, j: nat)
    requires CheckRaw(raw, topK) == Usable(output) && j < |Offered(raw)|
    ensures Supported(Offered(raw)[j])
    ensures
      || (exists i | 0 <= i < |output.candidates| :: output.candidates[i] == Tidy(Offered(raw)[j]))
      || forall p | 0 <= p < |output.candidates| :: output.candidates[p].confidence >= Offered(raw)[j].confidence
  {
    var cs := Offered(raw);
    KeptAre(raw, topK, output);
    var i := RankOf(cs, j);
    if i < |output.candidates| {
      assert output.candidates[i] == Tidy(cs[j]);
    } else {
      forall p | 0 <= p < |output.candidates| ensures output.candidates[p].confidence >= cs[j].confidence {
        RankedDescends(cs, p, i);
      }
    }
  }

  /** One answer fills one slot. */
  lemma TwoSlotsStayOpen(slots: seq<string>, answer: Option<Answer>)
    requires Sorting.Distinct(slots) && |slots| > 1
    ensures !AllAnswered(slots, answer)
  {
    var open := if slots[0] != AnsweredSlot(slots, answer) then slots[0] else slots[1];
    assert open in slots;
  }

  /** A kept candidate of another intent stands for everything that was cut. */
  lemma DifferentStands(call: Call, raw: RawOutput, topK: int, output: Output, p: nat, j: nat)
    requires CheckRaw(raw, topK) == Usable(output) && AcceptableOutput(call, output) && j < |Offered(raw)|
    requires p < |output.candidates| && output.candidates[p].intent != Chosen(call, output).intent
    requires Offered(raw)[j].intent != Chosen(call, output).intent
    ensures Chosen(call, output).confidence - Offered(raw)[j].confidence >= call.cfg.margin
  {
    KeptOrWeaker(raw, topK, output, j);
    var c := Chosen(call, output);
    assert c.confidence - output.candidates[p].confidence >= call.cfg.margin;
  }

  lemma AlikeStands(call: Call, raw: RawOutput, topK: int, output: Output, j: nat)
    requires CheckRaw(raw, topK) == Usable(output) && AcceptableOutput(call, output) && j < |Offered(raw)|
    requires Loaded(call.cfg) && Alike(output.candidates) && !Unopposed(output.candidates, Offered(raw)[j])
    requires Offered(raw)[j].intent != Chosen(call, output).intent
    ensures Chosen(call, output).confidence - Offered(raw)[j].confidence >= call.cfg.margin
  {
    KeptOrWeaker(raw, topK, output, j);
    EffectiveIntent(call, output);
    ContextOnlyForFollowups(call, output);
  }

  lemma TightMeansKept(call: Call, raw: RawOutput, topK: int, output: Output, j: nat)
    requires CheckRaw(raw, topK) == Usable(output) && Loaded(call.cfg) && AcceptableOutput(call, output)
    requires !Leaky(raw, output) && j < |Offered(raw)| && Offered(raw)[j].intent != Chosen(call, output).intent
    ensures Chosen(call, output).confidence - Offered(raw)[j].confidence >= call.cfg.margin
  {
    var c, kept := Chosen(call, output), output.candidates;
    KeptAre(raw, topK, output);
    EffectiveIntent(call, output);
    if |output.slots| > 1 {
      TwoSlotsStayOpen(output.slots, call.input.answer);
    } else if Alike(kept) {
      AlikeStands(call, raw, topK, output, j);
    } else {
      var p, q :| 0 <= p < |kept| && 0 <= q < |kept| && kept[p].intent != kept[q].intent;
      DifferentStands(call, raw, topK, output, if kept[p].intent != c.intent then p else q, j);
    }
  }

  // ---------------------------------------------------------------- where it is not

  /** A request with no keyword to match and every strategy the reply could ask for, on a running incident. */
  function Plainly(output: Output, acceptAt: real, margin: real, context: Option<Snapshot>): Call {
    Call(
      Config("", 0, acceptAt, margin, 0, 0, 0, 0, {output.strategy}, "", [], [], []),
      Input("", context, if output.slots == [] then None else Some(Answer("", "x", "", 0))),
      false, AUTO, 0)
  }

  const ONGOING := Snapshot("incident", map[], [], "1", Some(0))

  lemma PlainlyAnswered(output: Output, acceptAt: real, margin: real, context: Option<Snapshot>)
    requires |output.slots| <= 1
    ensures var call := Plainly(output, acceptAt, margin, context);
            NoKeyword(call.input.query, call.cfg) && !HasStateChanged(call.input) && AllAnswered(output.slots, call.input.answer)
  {
    assert TrimSpace("x") == "x" && Code("") == "";
  }

  lemma PlainlyChosen(output: Output, acceptAt: real, margin: real)
    requires output.candidates != []
    ensures var call := Plainly(output, acceptAt, margin, None);
            !Blocking(SelectionFor(call, output).reason) && Chosen(call, output) == output.candidates[0]
  {
  }

  lemma OngoingChosen(output: Output, acceptAt: real, margin: real)
    requires output.candidates != [] && output.candidates[0].intent == IncidentFollowup
    requires output.candidates[0].confidence < acceptAt
    ensures var call := Plainly(output, acceptAt, margin, Some(ONGOING));
            && !Blocking(SelectionFor(call, output).reason)
            && Chosen(call, output) == output.candidates[0].(confidence := acceptAt)
  {
    var call := Plainly(output, acceptAt, margin, Some(ONGOING));
    assert TrimSpace("") == "" && Lower("") == "";
    assert !HasTopicSwitch("") && IsElliptical("") && !Conflicts("", map[]);
    assert FirstFollowup(output.candidates) == 0;
  }

  /** The margin over another intent, broken by a request that is accepted all the same. */
  lemma BreaksMargin(raw: RawOutput, output: Output, call: Call, j: nat)
    requires output.candidates != [] && Loaded(call.cfg) && AcceptableOutput(call, output) && j < |Offered(raw)|
    requires Offered(raw)[j].intent != Chosen(call, output).intent
    requires Chosen(call, output).confidence - Offered(raw)[j].confidence < call.cfg.margin
    ensures !MarginKept(raw, output)
  {
  }

  lemma LeakyBreaks(raw: RawOutput, topK: int, output: Output)
    requires CheckRaw(raw, topK) == Usable(output) && Leaky(raw, output)
    ensures !MarginKept(raw, output)
  {
    var j :| 0 <= j < |Offered(raw)| && Unopposed(output.candidates, Offered(raw)[j]);
    var best, other := output.candidates[0], Offered(raw)[j];
    KeptOrWeaker(raw, topK, output, j);
    KeptSupported(raw, topK, 0);
    var margin := if |output.candidates| > 1 then best.confidence else 1.0;
    if best.confidence > 0.0 {
      var call := Plainly(output, best.confidence, margin, None);
      PlainlyAnswered(output, best.confidence, margin, None);
      PlainlyChosen(output, best.confidence, margin);
      assert AheadOf(best, output.candidates, margin);
      BreaksMargin(raw, output, call, j);
    } else {
      var call := Plainly(output, 0.5, 1.0, Some(ONGOING));
      PlainlyAnswered(output, 0.5, 1.0, Some(ONGOING));
      OngoingChosen(output, 0.5, 1.0);
      assert AheadOf(Chosen(call, output), output.candidates, 1.0);
      BreaksMargin(raw, output, call, j);
    }
  }

  /**
   * An acceptance always keeps the margin over every candidate of the reply, those cut off by
   * the limit included, exactly when the reply is not leaky under the limit.
   */
  lemma MarginKeptExactly(raw: RawOutput, topK: int, output: Output)
    requires CheckRaw(raw, topK) == Usable(output)
    ensures MarginKept(raw, output) <==> !Leaky(raw, output)
  {
    if Leaky(raw, output) {
      LeakyBreaks(raw, topK, output);
    } else {
      forall call: Call | Loaded(call.cfg) && AcceptableOutput(call, output)
        ensures AheadOf(Chosen(call, output), Offered(raw), call.cfg.margin)
      {
        forall j | 0 <= j < |Offered(raw)| && Offered(raw)[j].intent != Chosen(call, output).intent
          ensures Chosen(call, output).confidence - Offered(raw)[j].confidence >= call.cfg.margin
        {
          TightMeansKept(call, raw, topK, output, j);
        }
      }
    }
  }

  // ---------------------------------------------------------------- limits

  ghost predicate DistinctIntents(cs: seq<Candidate>) {
    forall i, j | 0 <= i < j < |cs| :: cs[i].intent != cs[j].intent
  }

  /** Tidying and ranking keep apart what has different intents. */
  lemma RankedDistinct(cs: seq<Candidate>, i: nat, j: nat)
    requires DistinctIntents(cs) && i < j < |cs|
    ensures Ranked(cs)[i].intent != Ranked(cs)[j].intent
  {
    forall a, b | 0 <= a < b < |cs| ensures TidyAll(cs)[a] != TidyAll(cs)[b] {
      assert cs[a].intent != cs[b].intent;
    }
    Sorting.SortByPermutes(AtLeastAsSure, TidyAll(cs));
    Sorting.DistinctPermutes(TidyAll(cs), Ranked(cs));
    RankedFrom(cs, i);
    RankedFrom(cs, j);
    var a :| 0 <= a < |cs| && Ranked(cs)[i] == Tidy(cs[a]);
    var b :| 0 <= b < |cs| && Ranked(cs)[j] == Tidy(cs[b]);
    assert a != b;
  }

  /** A reply that repeats no intent is safe under every limit but one. */
  lemma DistinctKeepsMargin(raw: RawOutput, topK: int, output: Output)
    requires CheckRaw(raw, topK) == Usable(output) && DistinctIntents(Offered(raw)) && topK != 1
    ensures MarginKept(raw, output)
  {
    var cs := Offered(raw);
    KeptAre(raw, topK, output);
    RankedFrom(cs, 0);
    if |cs| > 1 {
      RankedDistinct(cs, 0, 1);
      assert output.candidates[0].intent != output.candidates[1].intent;
    }
    MarginKeptExactly(raw, topK, output);
  }

  const SURE := Candidate(KnowledgeQa, 0.90, [])
  const CLOSE := Candidate(ResourceQuery, 0.85, [])

  /** One intent as often as the limit allows, and a close second after it. */
  function Crowding(n: nat): (cs: seq<Candidate>)
    ensures |cs| == n + 1
    ensures forall i | 0 <= i <= n :: cs[i] == if i < n then SURE else CLOSE
  {
    seq(n + 1, i => if i < n then SURE else CLOSE)
  }

  lemma CrowdingRanked(n: nat)
    ensures Ranked(Crowding(n)) == Crowding(n)
  {
    assert Codes([]) == [];
    assert TidyAll(Crowding(n)) == Crowding(n);
    Sorting.SortedStays(AtLeastAsSure, Crowding(n));
  }

  /** Under every limit, the default of two included, some reply that repeats an intent hides a close second. */
  lemma EveryLimitLeaks(topK: int) returns (raw: RawOutput, output: Output)
    ensures CheckRaw(raw, topK) == Usable(output) && !MarginKept(raw, output)
  {
    var n := Kept(topK);
    raw := RawOutput("", "", 0.0, Crowding(n), [], [], Low);
    CrowdingRanked(n);
    output := Output("", Crowding(n)[..n], map[], [], Low);
    assert Unopposed(output.candidates, Offered(raw)[n]);
    MarginKeptExactly(raw, topK, output);
  }
}

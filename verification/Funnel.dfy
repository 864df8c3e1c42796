/**
 * The intent funnel of the agent router (internal/app/agent_router_funnel.go): a
 * deterministic guard, a classifier, and a last layer that accepts its best candidate,
 * asks back, or refuses. Confidences are real numbers.
 */
module Funnel {
  import opened Text
  import Sorting

  datatype Option<T> = None | Some(value: T)

  datatype Intent =
    | KnowledgeQa
    | IncidentDiagnosis
    | IncidentFollowup
    | ResourceQuery
    | ActionRequest
    | OutOfScope
    | Unsupported(name: string)

  datatype Risk = Unset | Low | Medium | High | UnsupportedRisk(name: string)

  datatype Decision = Chat | Incident | Confirm

  datatype Source = SafetyRule | RiskRule | IncidentRule | LayerThree | Clarifying | Fallback

  datatype ContextReason =
    | NoReason
    | TopicSwitch
    | VersionMissing
    | ContextExpired
    | PendingSlotAnswer
    | EntityConflict
    | IncidentMissing
    | CandidateMissing

  datatype Reason =
    | Injection
    | RiskyAction
    | StrongRule
    | DefaultUnavailable
    | ClassifierUnavailable
    | InvalidSchema
    | Passed
    | HighRisk
    | Unroutable
    | LowConfidence
    | TooClose
    | SlotsMissing
    | StrategyUnavailable
    | StateChanged
    | Context(why: ContextReason)
    | RoundsUsedUp

  datatype Candidate = Candidate(intent: Intent, confidence: real, reasons: seq<string>)

  /** What the classifier's reply decodes to; `entities` in the order they are visited. */
  datatype RawOutput = RawOutput(
    intent: string, strategy: string, confidence: real, candidates: seq<Candidate>,
    entities: seq<(string, string)>, slots: seq<string>, risk: Risk)

  datatype Reply = Unreachable | Malformed | Decoded(raw: RawOutput)

  /** A checked classifier output. */
  datatype Output = Output(
    strategy: string, candidates: seq<Candidate>, entities: map<string, string>, slots: seq<string>, risk: Risk)

  datatype Classified = Usable(output: Output) | Unusable(reason: Reason)

  datatype Snapshot = Snapshot(
    activeIncident: string, entities: map<string, string>, pendingSlots: seq<string>,
    stateVersion: string, updatedAt: Option<int>)

  datatype Answer = Answer(slot: string, value: string, stateVersion: string, round: int)

  datatype Input = Input(query: string, context: Option<Snapshot>, answer: Option<Answer>)

  datatype Config = Config(
    policyVersion: string, topK: int, acceptAt: real, margin: real, contextTtl: int, maxClarifications: int,
    cacheTtl: int, cacheMax: int, allowed: set<string>, defaultStrategy: string,
    incidentKeywords: seq<string>, riskKeywords: seq<string>, injectionKeywords: seq<string>)

  datatype Question = WhichService | WhichTime | WhichTask | WhichKeyInformation | ChatOrIncident

  /** `id` is the text whose digest is the identifier. */
  datatype Clarification = Clarification(
    id: (string, string, int), question: Question, missingSlots: seq<string>, candidates: seq<Intent>,
    stateVersion: string, round: int, expiresAt: int)

  datatype RouteResult = RouteResult(
    decision: Decision, strategy: string, confidence: real, reason: Reason, source: Source, degraded: bool,
    candidates: seq<Candidate>, entities: map<string, string>, missingSlots: seq<string>, risk: Risk,
    clarification: Option<Clarification>)

  const AUTO := "auto"

  function ConfirmRoute(reason: Reason): RouteResult {
    RouteResult(Confirm, "", 0.0, reason, Fallback, true, [], map[], [], Unset, None)
  }

  // ---------------------------------------------------------------- normalisation

  function Code(value: string): string {
    TrimSpace(Lower(value))
  }

  lemma LowerPart(s: string, i: nat, j: nat)
    requires i <= j <= |s|
    ensures Lower(Lower(s)[i..j]) == Lower(s)[i..j]
  {
  }

  lemma CodeLower(value: string)
    ensures Lower(Code(value)) == Code(value)
  {
    TrimPart(Lower(value), Go);
    var i, j :| 0 <= i <= j <= |Lower(value)| && TrimSpace(Lower(value)) == Lower(value)[i..j];
    LowerPart(value, i, j);
  }

  lemma TrimTwice(s: string)
    ensures TrimSpace(TrimSpace(s)) == TrimSpace(s)
  {
    TrimFixes(s, Go);
    TrimFixes(TrimSpace(s), Go);
  }

  lemma CodeIdempotent(value: string)
    ensures Code(Code(value)) == Code(value)
  {
    CodeLower(value);
    TrimTwice(Lower(value));
  }

  function AddCode(codes: seq<string>, value: string): seq<string> {
    var c := Code(value);
    if c == "" || c in codes then codes else codes + [c]
  }

  /** First occurrences of the non-empty codes, in order. */
  function Codes(values: seq<string>): seq<string> {
    if values == [] then [] else AddCode(Codes(values[..|values| - 1]), values[|values| - 1])
  }

  lemma {:induction false} CodesDistinct(values: seq<string>)
    ensures Sorting.Distinct(Codes(values)) && "" !in Codes(values)
  {
    if values != [] {
      CodesDistinct(values[..|values| - 1]);
    }
  }

  predicate AllowedEntity(key: string) {
    key == "service" || key == "task_id" || key == "time_range"
  }

  function AddEntity(m: map<string, string>, key: string, value: string): map<string, string> {
    if AllowedEntity(Code(key)) && TrimSpace(value) != "" then m[Code(key) := TrimSpace(value)] else m
  }

  /** Later entries win. */
  function Entities(pairs: seq<(string, string)>): map<string, string> {
    if pairs == [] then map[]
    else
      var n := |pairs| - 1;
      AddEntity(Entities(pairs[..n]), pairs[n].0, pairs[n].1)
  }

  /** Entities that normalising again leaves alone. */
  predicate NormalEntity(key: string, value: string) {
    AllowedEntity(key) && Code(key) == key && value != "" && TrimSpace(value) == value
  }

  ghost predicate Normal(m: map<string, string>) {
    forall k | k in m :: NormalEntity(k, m[k])
  }

  lemma AddEntityNormal(m: map<string, string>, key: string, value: string)
    requires Normal(m)
    ensures Normal(AddEntity(m, key, value))
  {
    CodeIdempotent(key);
    TrimTwice(value);
  }

  lemma {:induction false} EntitiesNormal(pairs: seq<(string, string)>)
    ensures Normal(Entities(pairs))
  {
    if pairs != [] {
      var n := |pairs| - 1;
      EntitiesNormal(pairs[..n]);
      AddEntityNormal(Entities(pairs[..n]), pairs[n].0, pairs[n].1);
    }
  }

  ghost predicate Normalised(m: map<string, string>) {
    exists pairs: seq<(string, string)> :: Entities(pairs) == m
  }

  lemma NormalisedIsNormal(m: map<string, string>)
    requires Normalised(m)
    ensures Normal(m)
  {
    var pairs: seq<(string, string)> :| Entities(pairs) == m;
    EntitiesNormal(pairs);
  }

  // ---------------------------------------------------------------- checking the classifier's reply

  predicate Supported(c: Candidate) {
    !c.intent.Unsupported? && 0.0 <= c.confidence <= 1.0
  }

  function Offered(raw: RawOutput): seq<Candidate> {
    if raw.candidates != [] then raw.candidates
    else if TrimSpace(raw.intent) == "chat" then [Candidate(KnowledgeQa, raw.confidence, ["legacy_classifier_output"])]
    else if TrimSpace(raw.intent) == "incident" then
      [Candidate(IncidentDiagnosis, raw.confidence, ["legacy_classifier_output"])]
    else []
  }

  function Tidy(c: Candidate): Candidate {
    c.(reasons := Codes(c.reasons))
  }

  function TidyAll(cs: seq<Candidate>): (r: seq<Candidate>)
    ensures |r| == |cs|
    ensures forall i | 0 <= i < |cs| :: r[i] == Tidy(cs[i])
  {
    if cs == [] then [] else TidyAll(cs[..|cs| - 1]) + [Tidy(cs[|cs| - 1])]
  }

  predicate AtLeastAsSure(a: Candidate, b: Candidate) {
    a.confidence >= b.confidence
  }

  function Ranked(cs: seq<Candidate>): (r: seq<Candidate>)
    ensures |r| == |cs|
  {
    Sorting.SortBy(AtLeastAsSure, TidyAll(cs))
  }

  function Kept(topK: int): (k: nat)
    ensures k > 0
  {
    if topK <= 0 then 2 else topK
  }

  function Take<T>(s: seq<T>, k: nat): seq<T> {
    if |s| > k then s[..k] else s
  }

  function CheckRaw(raw: RawOutput, topK: int): (r: Classified)
    ensures r.Usable? ==> r.output.candidates != [] && !r.output.risk.Unset?
  {
    var offered := Offered(raw);
    if offered == [] || !(forall i | 0 <= i < |offered| :: Supported(offered[i])) || raw.risk.UnsupportedRisk? then
      Unusable(InvalidSchema)
    else
      Usable(Output(raw.strategy, Take(Ranked(offered), Kept(topK)), Entities(raw.entities), Codes(raw.slots),
        if raw.risk.Unset? then Low else raw.risk))
  }

  function Classify(reply: Reply, topK: int): (r: Classified)
    ensures r.Usable? ==> r.output.candidates != [] && !r.output.risk.Unset?
  {
    match reply
    case Unreachable => Unusable(ClassifierUnavailable)
    case Malformed => Unusable(InvalidSchema)
    case Decoded(raw) => CheckRaw(raw, topK)
  }

  // ---------------------------------------------------------------- layer 1: the deterministic guard

  function GuardQuery(query: string): string {
    Lower(TrimSpace(query))
  }

  predicate MatchesRule(query: string, keywords: seq<string>) {
    keywords != [] &&
    (Contains(Lower(TrimSpace(query)), Lower(keywords[0])) || MatchesRule(query, keywords[1..]))
  }

  function ConcreteStrategy(asked: string, otherwise: string): string {
    if asked == AUTO then otherwise else asked
  }

  function Guard(query: string, strategy: string, cfg: Config): Option<RouteResult> {
    var q := GuardQuery(query);
    if ContainsAny(q, cfg.injectionKeywords) then
      Some(ConfirmRoute(Injection).(risk := High, source := SafetyRule))
    else if ContainsAny(q, cfg.riskKeywords) then
      Some(RouteResult(Confirm, "", 1.0, RiskyAction, RiskRule, false,
        [Candidate(ActionRequest, 1.0, ["high_risk_action"])], map[], [], High, None))
    else if MatchesRule(q, cfg.incidentKeywords) then
      var chosen := ConcreteStrategy(strategy, cfg.defaultStrategy);
      if chosen !in cfg.allowed then Some(ConfirmRoute(DefaultUnavailable))
      else Some(RouteResult(Incident, chosen, 1.0, StrongRule, IncidentRule, false,
        [Candidate(IncidentDiagnosis, 1.0, ["strong_incident_rule"])], map[], [], Low, None))
    else None
  }

  // ---------------------------------------------------------------- layer 3

  /** The slot an answer fills; empty if none. */
  function AnsweredSlot(slots: seq<string>, answer: Option<Answer>): string {
    if answer.None? || TrimSpace(answer.value.value) == "" then ""
    else
      var slot := Code(answer.value.slot);
      if slot == "" && |slots| == 1 then slots[0] else slot
  }

  function Without(slots: seq<string>, slot: string): (r: seq<string>)
    ensures |r| <= |slots|
    ensures forall s :: s in r <==> s in slots && s != slot
  {
    if slots == [] then []
    else
      var n := |slots| - 1;
      Without(slots[..n], slot) + if slots[n] != slot then [slots[n]] else []
  }

  function AnsweredEntities(entities: map<string, string>, slot: string, value: string): map<string, string> {
    var added := AddEntity(map[], slot, value);
    if added == map[] then entities else entities[slot := if slot in added then added[slot] else ""]
  }

  function WithAnswer(output: Output, answer: Option<Answer>): Output {
    var slot := AnsweredSlot(output.slots, answer);
    if slot == "" then output
    else output.(entities := AnsweredEntities(output.entities, slot, answer.value.value),
                 slots := Without(output.slots, slot))
  }

  const TOPIC_SWITCHES := ["换个问题", "另一个问题", "另外问", "new topic", "unrelated"]
  const ELLIPSES := ["那它", "那这个", "继续看", "然后呢", "what about"]
  const OTHER_SERVICE := ["另一个服务", "其他服务", "换成", "instead"]

  predicate HasTopicSwitch(query: string) {
    ContainsAny(Lower(TrimSpace(query)), TOPIC_SWITCHES)
  }

  predicate IsElliptical(query: string) {
    var q := TrimSpace(query);
    |q| <= 12 || ContainsAny(Lower(q), ELLIPSES)
  }

  predicate Conflicts(query: string, entities: map<string, string>) {
    var service := Lower(TrimSpace(if "service" in entities then entities["service"] else ""));
    service != "" && !Contains(Lower(query), service) && ContainsAny(Lower(query), OTHER_SERVICE)
  }

  datatype Selection = Selection(candidate: Candidate, contextUsed: bool, reason: ContextReason)

  /** Position of the first follow-up candidate, or the length. */
  function FirstFollowup(cs: seq<Candidate>): (i: nat)
    ensures i <= |cs|
    ensures i < |cs| ==> cs[i].intent == IncidentFollowup
    ensures forall j | 0 <= j < i :: cs[j].intent != IncidentFollowup
  {
    if cs == [] || cs[0].intent == IncidentFollowup then 0 else 1 + FirstFollowup(cs[1..])
  }

  function Select(query: string, cs: seq<Candidate>, context: Option<Snapshot>, ttl: int, now: int): (sel: Selection)
    requires cs != []
    ensures sel.candidate in cs
  {
    var best := cs[0];
    if context.None? then Selection(best, false, NoReason)
    else
      var snap := context.value;
      if HasTopicSwitch(query) then Selection(best, false, TopicSwitch)
      else if snap.stateVersion == "" || snap.updatedAt.None? then Selection(best, false, VersionMissing)
      else if ttl > 0 && now - snap.updatedAt.value > ttl then Selection(best, false, ContextExpired)
      else if snap.pendingSlots != [] && IsElliptical(query) then Selection(best, true, PendingSlotAnswer)
      else if Conflicts(query, snap.entities) then Selection(best, false, EntityConflict)
      else if best.intent == IncidentFollowup && snap.activeIncident == "" then Selection(best, false, IncidentMissing)
      else if snap.activeIncident != "" && IsElliptical(query) then
        var i := FirstFollowup(cs);
        if i < |cs| then Selection(cs[i], true, NoReason) else Selection(best, false, CandidateMissing)
      else Selection(best, false, NoReason)
  }

  /** Context lifts a weak candidate to the acceptance threshold. */
  function Effective(sel: Selection, cfg: Config): Candidate {
    if sel.contextUsed && sel.candidate.confidence < cfg.acceptAt
    then sel.candidate.(confidence := cfg.acceptAt)
    else sel.candidate
  }

  function RunnerUp(cs: seq<Candidate>, intent: Intent): (m: real)
    ensures m >= 0.0
    ensures forall i | 0 <= i < |cs| :: cs[i].intent != intent ==> cs[i].confidence <= m
    ensures m == 0.0 || exists i | 0 <= i < |cs| :: cs[i].intent != intent && cs[i].confidence == m
  {
    if cs == [] then 0.0
    else
      var n := |cs| - 1;
      var m := RunnerUp(cs[..n], intent);
      if cs[n].intent != intent && cs[n].confidence > m then cs[n].confidence else m
  }

  function LayerThreeResult(c: Candidate, output: Output): RouteResult {
    RouteResult(Confirm, "", c.confidence, Passed, LayerThree, false, output.candidates, output.entities,
      output.slots, output.risk, None)
  }

  function AsIncident(r: RouteResult, strategy: string, cfg: Config): RouteResult {
    if strategy in cfg.allowed then r.(decision := Incident, strategy := strategy)
    else r.(reason := StrategyUnavailable)
  }

  function Route(c: Candidate, output: Output, diagnosis: bool, strategy: string, cfg: Config): RouteResult {
    var r := LayerThreeResult(c, output);
    var chosen := ConcreteStrategy(strategy, output.strategy);
    if output.risk == High || c.intent == ActionRequest then r.(reason := HighRisk, risk := High)
    else if c.intent == OutOfScope then r.(reason := Unroutable)
    else if c.confidence < cfg.acceptAt then r.(reason := LowConfidence)
    else if |output.candidates| > 1 && c.confidence - RunnerUp(output.candidates, c.intent) < cfg.margin then
      r.(reason := TooClose)
    else if output.slots != [] then r.(reason := SlotsMissing)
    else if diagnosis then AsIncident(r, chosen, cfg)
    else match c.intent
      case KnowledgeQa | ResourceQuery => r.(decision := Chat)
      case IncidentDiagnosis | IncidentFollowup => AsIncident(r, chosen, cfg)
      case _ => r.(reason := Unroutable)
  }

  predicate HasStateChanged(input: Input) {
    && input.answer.Some? && input.context.Some?
    && input.answer.value.stateVersion != ""
    && input.answer.value.stateVersion != input.context.value.stateVersion
  }

  function QuestionFor(slots: seq<string>): Question {
    if slots == [] then ChatOrIncident
    else if slots[0] == "service" then WhichService
    else if slots[0] == "time_range" then WhichTime
    else if slots[0] == "task_id" then WhichTask
    else WhichKeyInformation
  }

  function IntentsOf(cs: seq<Candidate>): (r: seq<Intent>)
    ensures |r| == |cs|
    ensures forall i | 0 <= i < |cs| :: r[i] == cs[i].intent
  {
    if cs == [] then [] else IntentsOf(cs[..|cs| - 1]) + [cs[|cs| - 1].intent]
  }

  function Round(input: Input): int {
    if input.answer.None? then 1 else input.answer.value.round + 1
  }

  function VersionOf(input: Input): string {
    if input.context.None? then "" else input.context.value.stateVersion
  }

  function Clarify(input: Input, output: Output, cfg: Config, reason: Reason, now: int): RouteResult
    requires output.candidates != []
  {
    var r := RouteResult(Confirm, "", output.candidates[0].confidence,
      if HasStateChanged(input) then StateChanged else reason, Clarifying, false, output.candidates,
      output.entities, output.slots, output.risk, None);
    if cfg.maxClarifications == 0 || Round(input) > cfg.maxClarifications then r.(reason := RoundsUsedUp)
    else r.(clarification := Some(Clarification((TrimSpace(input.query), VersionOf(input), Round(input)),
      QuestionFor(output.slots), output.slots, IntentsOf(output.candidates), VersionOf(input), Round(input),
      now + cfg.contextTtl)))
  }

  /** One request as the funnel sees it; `now` is its single reading of the clock. */
  datatype Call = Call(cfg: Config, input: Input, diagnosis: bool, strategy: string, now: int)

  predicate Blocking(reason: ContextReason) {
    reason != NoReason && reason != TopicSwitch
  }

  function Judged(call: Call, output: Output, sel: Selection): RouteResult
    requires output.candidates != []
  {
    var Call(cfg, input, diagnosis, strategy, now) := call;
    if Blocking(sel.reason) then Clarify(input, output, cfg, Context(sel.reason), now)
    else
      var c := Effective(sel, cfg);
      var r := Route(c, output, diagnosis, strategy, cfg);
      if r.decision == Confirm && r.risk != High && c.intent != OutOfScope
      then Clarify(input, output, cfg, r.reason, now)
      else r
  }

  function SelectionFor(call: Call, output: Output): Selection
    requires output.candidates != []
  {
    Select(call.input.query, output.candidates, call.input.context, call.cfg.contextTtl, call.now)
  }

  function Decided(call: Call, output: Output): RouteResult
    requires output.candidates != []
  {
    Judged(call, output, SelectionFor(call, output))
  }

  /** Everything after the candidates are known. */
  function Finished(call: Call, output: Output): RouteResult
    requires output.candidates != []
  {
    if HasStateChanged(call.input) then Clarify(call.input, output, call.cfg, StateChanged, call.now)
    else Decided(call, WithAnswer(output, call.input.answer))
  }

  function FinishClassified(call: Call, classified: Classified): RouteResult
    requires classified.Usable? ==> classified.output.candidates != []
  {
    match classified
    case Unusable(reason) => ConfirmRoute(reason)
    case Usable(output) => Finished(call, output)
  }

  /** The funnel without its candidate cache. */
  function Uncached(call: Call, reply: Reply): RouteResult {
    match Guard(call.input.query, call.strategy, call.cfg)
    case Some(r) => r
    case None => FinishClassified(call, Classify(reply, call.cfg.topK))
  }
}

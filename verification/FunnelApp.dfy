/**
 * The funnel as the router runs it: outputs whose slots live in an array that is filtered
 * in place, entity tables shared by reference, and a cache of cloned outputs.
 */
module FunnelApp {
  import opened Text
  import opened Funnel
  import opened FunnelCache
  import Sorting

  // ---------------------------------------------------------------- loops over values

  method NormalizedCodes(values: seq<string>) returns (result: seq<string>)
    ensures result == Codes(values)
  {
    var seen: set<string> := {};
    result := [];
    for i := 0 to |values|
      invariant result == Codes(values[..i])
      invariant forall c :: c in seen <==> c in result
    {
      var value := Code(values[i]);
      assert values[..i + 1][..i] == values[..i];
      if value != "" && value !in seen {
        seen := seen + {value};
        result := result + [value];
      }
    }
    assert values[..|values|] == values;
  }

  method NormalizedEntities(pairs: seq<(string, string)>) returns (result: map<string, string>)
    ensures result == Entities(pairs)
  {
    result := map[];
    for i := 0 to |pairs|
      invariant result == Entities(pairs[..i])
    {
      var key, value := Code(pairs[i].0), TrimSpace(pairs[i].1);
      assert pairs[..i + 1][..i] == pairs[..i];
      if AllowedEntity(key) && value != "" {
        result := result[key := value];
      }
    }
    assert pairs[..|pairs|] == pairs;
  }

  /** `pairs` is the map, each key once. */
  ghost predicate Lists(pairs: seq<(string, string)>, m: map<string, string>) {
    if pairs == [] then m == map[]
    else
      var n := |pairs| - 1;
      pairs[n].0 in m && m[pairs[n].0] == pairs[n].1 && Lists(pairs[..n], m - {pairs[n].0})
  }

  lemma NormalAdded(m: map<string, string>, key: string, value: string)
    requires NormalEntity(key, value)
    ensures AddEntity(m, key, value) == m[key := value]
  {
  }

  lemma RemovedAndAdded(m: map<string, string>, key: string)
    requires key in m
    ensures (m - {key})[key := m[key]] == m
  {
  }

  /** Normalising the entities of a checked output again changes nothing, in whatever order they are visited. */
  lemma {:induction false} NormalEntitiesStay(pairs: seq<(string, string)>, m: map<string, string>)
    requires Lists(pairs, m) && Normal(m)
    ensures Entities(pairs) == m
  {
    if pairs != [] {
      var n := |pairs| - 1;
      var key := pairs[n].0;
      NormalEntitiesStay(pairs[..n], m - {key});
      NormalAdded(m - {key}, key, m[key]);
      RemovedAndAdded(m, key);
    }
  }

  /** The pairs of a map in the order an iteration happens to visit them. */
  method Visit(m: map<string, string>) returns (pairs: seq<(string, string)>)
    ensures Lists(pairs, m)
    decreases |m.Keys|
  {
    if m == map[] {
      return [];
    }
    var key :| key in m;
    assert (m - {key}).Keys == m.Keys - {key};
    var rest := Visit(m - {key});
    pairs := rest + [(key, m[key])];
    assert pairs[..|rest|] == rest;
  }

  method RunnerUpOf(cs: seq<Candidate>, intent: Intent) returns (best: real)
    ensures best == RunnerUp(cs, intent)
  {
    best := 0.0;
    for i := 0 to |cs|
      invariant best == RunnerUp(cs[..i], intent)
    {
      assert cs[..i + 1][..i] == cs[..i];
      if cs[i].intent != intent && cs[i].confidence > best {
        best := cs[i].confidence;
      }
    }
    assert cs[..|cs|] == cs;
  }

  method Tidied(c: Candidate) returns (tidy: Candidate)
    ensures tidy == Tidy(c)
  {
    var reasons := NormalizedCodes(c.reasons);
    tidy := c.(reasons := reasons);
  }

  lemma {:induction false} TidyPointwise(tidy: seq<Candidate>, cs: seq<Candidate>)
    requires |tidy| == |cs| && forall i | 0 <= i < |cs| :: tidy[i] == Tidy(cs[i])
    ensures tidy == TidyAll(cs)
  {
    assert forall i | 0 <= i < |cs| :: tidy[i] == TidyAll(cs)[i];
  }

  /** Checks the candidates one by one and tidies their reason codes in place. */
  method CheckCandidates(cs: array<Candidate>) returns (ok: bool)
    modifies cs
    ensures ok <==> forall i | 0 <= i < cs.Length :: Supported(old(cs[i]))
    ensures ok ==> cs[..] == TidyAll(old(cs[..]))
  {
    ghost var before := cs[..];
    for i := 0 to cs.Length
      invariant forall j | 0 <= j < i :: Supported(before[j]) && cs[j] == Tidy(before[j])
      invariant forall j | i <= j < cs.Length :: cs[j] == before[j]
    {
      if !Supported(cs[i]) {
        return false;
      }
      cs[i] := Tidied(cs[i]);
    }
    TidyPointwise(cs[..], before);
    ok := true;
  }

  // ---------------------------------------------------------------- outputs on the heap

  /** A Go map: shared by reference. A nil map is an empty table. */
  class EntityTable {
    var items: map<string, string>

    constructor (items: map<string, string>)
      ensures this.items == items
    {
      this.items := items;
    }
  }

  class FlashOutput {
    const strategy: string
    const candidates: seq<Candidate>
    const risk: Risk
    const entities: EntityTable
    const slots: array<string>
    var slotCount: nat

    ghost function Parts(): set<object> {
      {this, entities, slots}
    }

    ghost predicate Valid()
      reads this
    {
      slotCount <= slots.Length
    }

    function Value(): Output
      requires Valid()
      reads this, entities, slots
    {
      Output(strategy, candidates, entities.items, slots[..slotCount], risk)
    }

    constructor (strategy: string, candidates: seq<Candidate>, entities: EntityTable, slots: array<string>, risk: Risk)
      ensures Valid() && Value() == Output(strategy, candidates, entities.items, slots[..], risk)
      ensures this.entities == entities && this.slots == slots
    {
      this.strategy, this.candidates, this.risk := strategy, candidates, risk;
      this.entities, this.slots, this.slotCount := entities, slots, slots.Length;
    }

    /** A copy that shares neither the slots nor the entities. */
    method Clone() returns (copy: FlashOutput)
      requires Valid() && Normalised(entities.items)
      ensures fresh(copy.Parts()) && copy.Valid() && copy.Value() == Value()
    {
      var table := CopyEntities();
      var copied := CopySlots();
      copy := new FlashOutput(strategy, candidates, table, copied, risk);
    }

    method CopyEntities() returns (table: EntityTable)
      requires Normalised(entities.items)
      ensures fresh(table) && table.items == entities.items
    {
      var pairs := Visit(entities.items);
      var items := NormalizedEntities(pairs);
      NormalisedIsNormal(entities.items);
      NormalEntitiesStay(pairs, entities.items);
      table := new EntityTable(items);
    }

    method CopySlots() returns (copied: array<string>)
      requires Valid()
      ensures fresh(copied) && copied[..] == slots[..slotCount]
    {
      copied := new string[slotCount](i requires 0 <= i < slotCount <= slots.Length reads this, slots => slots[i]);
    }

    /** Removes a slot, writing the kept ones over the same array. */
    method RemoveSlot(slot: string)
      requires Valid()
      modifies this, slots
      ensures Valid() && Value() == old(Value()).(slots := Without(old(Value()).slots, slot))
    {
      var kept := 0;
      ghost var before := slots[..slotCount];
      for i := 0 to slotCount
        invariant kept <= i <= slotCount <= slots.Length && slotCount == |before|
        invariant slots[..kept] == Without(before[..i], slot)
        invariant forall k | i <= k < slotCount :: slots[k] == before[k]
        invariant entities.items == old(entities.items)
      {
        assert before[..i + 1][..i] == before[..i];
        if slots[i] != slot {
          slots[kept] := slots[i];
          kept := kept + 1;
        }
      }
      assert before[..slotCount] == before;
      slotCount := kept;
    }

    method AddEntityFor(slot: string, value: string)
      requires Valid()
      modifies entities
      ensures Valid() && Value() == old(Value()).(entities := AnsweredEntities(old(Value()).entities, slot, value))
    {
      assert [(slot, value)][..0] == [];
      var normalized := NormalizedEntities([(slot, value)]);
      if normalized != map[] {
        entities.items := entities.items[slot := if slot in normalized then normalized[slot] else ""];
      }
    }

    method ApplyAnswer(answer: Option<Answer>)
      requires Valid()
      modifies this, entities, slots
      ensures Valid() && Value() == WithAnswer(old(Value()), answer)
    {
      if answer.None? || TrimSpace(answer.value.value) == "" {
        return;
      }
      var slot := Code(answer.value.slot);
      if slot == "" && slotCount == 1 {
        slot := slots[0];
      }
      if slot == "" {
        return;
      }
      AddEntityFor(slot, answer.value.value);
      RemoveSlot(slot);
    }
  }

  // ---------------------------------------------------------------- results

  method RouteCandidate(c: Candidate, output: Output, diagnosis: bool, strategy: string, cfg: Config)
    returns (result: RouteResult)
    ensures result == Route(c, output, diagnosis, strategy, cfg)
  {
    result := LayerThreeResult(c, output);
    if output.risk == High || c.intent == ActionRequest {
      return result.(reason := HighRisk, risk := High);
    }
    if c.intent == OutOfScope {
      return result.(reason := Unroutable);
    }
    var runnerUp := RunnerUpOf(output.candidates, c.intent);
    if c.confidence < cfg.acceptAt {
      return result.(reason := LowConfidence);
    }
    if |output.candidates| > 1 && c.confidence - runnerUp < cfg.margin {
      return result.(reason := TooClose);
    }
    if output.slots != [] {
      return result.(reason := SlotsMissing);
    }
    var chosen := ConcreteStrategy(strategy, output.strategy);
    if diagnosis {
      return AsIncident(result, chosen, cfg);
    }
    match c.intent
    case KnowledgeQa | ResourceQuery => result := result.(decision := Chat);
    case IncidentDiagnosis | IncidentFollowup => result := AsIncident(result, chosen, cfg);
    case _ => result := result.(reason := Unroutable);
  }

  method IntentsIn(cs: seq<Candidate>) returns (intents: seq<Intent>)
    ensures intents == IntentsOf(cs)
  {
    intents := [];
    for i := 0 to |cs|
      invariant intents == IntentsOf(cs[..i])
    {
      assert cs[..i + 1][..i] == cs[..i];
      intents := intents + [cs[i].intent];
    }
    assert cs[..|cs|] == cs;
  }

  method NewClarification(input: Input, output: Output, cfg: Config, reason: Reason, now: int)
    returns (result: RouteResult)
    requires output.candidates != []
    ensures result == Clarify(input, output, cfg, reason, now)
  {
    var round, why := 1, reason;
    if input.answer.Some? {
      round := input.answer.value.round + 1;
      if HasStateChanged(input) {
        why := StateChanged;
      }
    }
    result := RouteResult(Confirm, "", output.candidates[0].confidence, why, Clarifying, false, output.candidates,
      output.entities, output.slots, output.risk, None);
    if cfg.maxClarifications == 0 || round > cfg.maxClarifications {
      return result.(reason := RoundsUsedUp);
    }
    var intents := IntentsIn(output.candidates);
    var version := VersionOf(input);
    result := result.(clarification := Some(Clarification((TrimSpace(input.query), version, round),
      QuestionFor(output.slots), output.slots, intents, version, round, now + cfg.contextTtl)));
  }

  // ---------------------------------------------------------------- the router

  /** The checked, ranked and cut candidates of a reply; none if it does not pass the schema. */
  method AcceptCandidates(raw: RawOutput, topK: int) returns (kept: seq<Candidate>)
    ensures var offered := Offered(raw);
            var ok := offered != [] && forall i | 0 <= i < |offered| :: Supported(offered[i]);
            kept == if ok then Take(Ranked(offered), Kept(topK)) else []
  {
    var offered := Offered(raw);
    if offered == [] {
      return [];
    }
    var cs := new Candidate[|offered|](i requires 0 <= i < |offered| => offered[i]);
    assert cs[..] == offered;
    label Filled:
    var ok := CheckCandidates(cs);
    assert forall i | 0 <= i < |offered| :: old@Filled(cs[i]) == offered[i];
    if !ok {
      return [];
    }
    kept := Take(Sorting.SortBy(AtLeastAsSure, cs[..]), Kept(topK));
  }

  method NewOutput(strategy: string, kept: seq<Candidate>, items: map<string, string>, codes: seq<string>, risk: Risk)
    returns (output: FlashOutput)
    ensures fresh(output.Parts()) && output.Valid() && output.Value() == Output(strategy, kept, items, codes, risk)
  {
    var table := new EntityTable(items);
    var slots := new string[|codes|](i requires 0 <= i < |codes| => codes[i]);
    assert slots[..] == codes;
    output := new FlashOutput(strategy, kept, table, slots, risk);
  }

  /** A fresh output for a decoded reply, or null when it does not pass the schema. */
  method ParseRouteOutput(raw: RawOutput, topK: int) returns (output: FlashOutput?)
    ensures output == null ==> CheckRaw(raw, topK) == Unusable(InvalidSchema)
    ensures output != null ==> fresh(output.Parts()) && output.Valid() && CheckRaw(raw, topK) == Usable(output.Value())
    ensures output != null ==> Normalised(output.entities.items) && output.candidates != []
  {
    var kept := AcceptCandidates(raw, topK);
    if kept == [] || raw.risk.UnsupportedRisk? {
      return null;
    }
    var items := NormalizedEntities(raw.entities);
    var codes := NormalizedCodes(raw.slots);
    output := NewOutput(raw.strategy, kept, items, codes, if raw.risk.Unset? then Low else raw.risk);
  }

  /** What cloning and the last layer ask of an output. */
  ghost predicate Proper(key: string, output: Output) {
    Normalised(output.entities) && output.candidates != []
  }

  lemma ProperHolds(cache: Cache)
    requires Every(Proper, cache)
    ensures HoldsCandidates(cache)
  {
    forall key | key in cache ensures HasCandidates(key, cache[key].output) {
      assert Proper(key, cache[key].output);
    }
  }

  datatype CacheEntry = CacheEntry(output: FlashOutput, expiresAt: int)

  type Entries = map<string, CacheEntry>

  ghost function Outputs(entries: Entries): set<FlashOutput> {
    set key | key in entries :: entries[key].output
  }

  ghost function Tables(entries: Entries): set<EntityTable> {
    set key | key in entries :: entries[key].output.entities
  }

  ghost function Buffers(entries: Entries): set<array<string>> {
    set key | key in entries :: entries[key].output.slots
  }

  ghost predicate Shows(entry: CacheEntry, value: Entry)
    reads entry.output, entry.output.entities, entry.output.slots
  {
    entry.output.Valid() && value == Entry(entry.output.Value(), entry.expiresAt)
  }

  /** The entries on the heap have these values. */
  ghost predicate Mirrors(entries: Entries, cache: Cache)
    reads Outputs(entries), Tables(entries), Buffers(entries)
  {
    entries.Keys == cache.Keys && forall key | key in entries :: Shows(entries[key], cache[key])
  }

  lemma MirrorsWithout(entries: Entries, cache: Cache, key: string)
    requires Mirrors(entries, cache)
    ensures Mirrors(entries - {key}, cache - {key})
  {
  }

  lemma MirrorsWith(entries: Entries, cache: Cache, key: string, entry: CacheEntry, value: Entry)
    requires Mirrors(entries, cache) && Shows(entry, value)
    ensures Mirrors(entries[key := entry], cache[key := value])
  {
  }

  /** The output shares nothing with any entry. */
  ghost predicate Apart(output: FlashOutput, entries: Entries) {
    forall key | key in entries :: Unshared(output, entries[key].output)
  }

  ghost predicate Unshared(a: FlashOutput, b: FlashOutput) {
    a != b && a.entities != b.entities && a.slots != b.slots
  }

  /** Removes whichever entry comes first when a new key finds the cache full. */
  method MakeRoom(entries: Entries, ghost cache: Cache, key: string, cfg: Config)
    returns (room: Entries, ghost victim: string)
    requires Mirrors(entries, cache) && CacheOn(cfg)
    ensures Mirrors(room, WithRoom(cache, key, cfg, victim))
    ensures forall k | k in room :: k in entries && room[k] == entries[k]
    ensures NeedsRoom(cache, key, cfg) ==> victim in cache
  {
    room, victim := entries, "";
    assert |entries.Keys| == |cache.Keys|;
    if key !in entries && |entries| >= cfg.cacheMax {
      assert entries.Keys != {};
      var first :| first in entries;
      MirrorsWithout(entries, cache, first);
      room, victim := entries - {first}, first;
    }
  }

  /** The entries after adding one of the cache's own. */
  method Admit(entries: Entries, ghost cache: Cache, cfg: Config, key: string, copy: FlashOutput, now: int)
    returns (after: Entries, ghost victim: string)
    requires Mirrors(entries, cache) && copy.Valid() && CacheOn(cfg) && copy.risk != High
    ensures Mirrors(after, Stored(cache, key, copy.Value(), cfg, now, victim))
    ensures forall k | k in after :: (k in entries && after[k] == entries[k]) || after[k].output == copy
    ensures NeedsRoom(cache, key, cfg) ==> victim in cache
  {
    var room;
    room, victim := MakeRoom(entries, cache, key, cfg);
    var entry := CacheEntry(copy, now + cfg.cacheTtl);
    MirrorsWith(room, WithRoom(cache, key, cfg, victim), key, entry, Entry(copy.Value(), now + cfg.cacheTtl));
    after := room[key := entry];
  }

  /** The entries after keeping a copy of the output, unless it is of high risk. */
  method CacheCandidates(entries: Entries, ghost cache: Cache, cfg: Config, key: string, output: FlashOutput, now: int)
    returns (after: Entries, ghost victim: string)
    requires Mirrors(entries, cache) && output.Valid() && Normalised(output.entities.items)
    requires Apart(output, entries)
    ensures Mirrors(after, Stored(cache, key, output.Value(), cfg, now, victim))
    ensures Apart(output, after)
    ensures Evicts(cache, key, output.Value(), cfg) ==> victim in cache
  {
    after, victim := entries, "";
    if CacheOn(cfg) && output.risk != High {
      var copy := output.Clone();
      after, victim := Admit(entries, cache, cfg, key, copy, now);
    }
  }

  /** The last layer over an output of its own, which it may change. */
  method Finish(call: Call, output: FlashOutput) returns (result: RouteResult)
    requires output.Valid() && output.candidates != []
    modifies output.Parts()
    ensures result == Finished(call, old(output.Value()))
  {
    if HasStateChanged(call.input) {
      result := NewClarification(call.input, output.Value(), call.cfg, StateChanged, call.now);
      return;
    }
    output.ApplyAnswer(call.input.answer);
    var answered := output.Value();
    result := Judge(call, answered, SelectionFor(call, answered));
  }

  method Judge(call: Call, output: Output, sel: Selection) returns (result: RouteResult)
    requires output.candidates != []
    ensures result == Judged(call, output, sel)
  {
    if Blocking(sel.reason) {
      result := NewClarification(call.input, output, call.cfg, Context(sel.reason), call.now);
      return;
    }
    var c := Effective(sel, call.cfg);
    result := RouteCandidate(c, output, call.diagnosis, call.strategy, call.cfg);
    if result.decision == Confirm && result.clarification.None? && result.risk != High && c.intent != OutOfScope {
      result := NewClarification(call.input, output, call.cfg, result.reason, call.now);
    }
  }

  /** The last layer changes the output at hand and nothing that is cached. */
  method FinishApart(call: Call, output: FlashOutput, ghost entries: Entries, ghost cache: Cache)
    returns (result: RouteResult)
    requires output.Valid() && output.candidates != []
    requires Mirrors(entries, cache) && Apart(output, entries)
    modifies output.Parts()
    ensures Mirrors(entries, cache)
    ensures result == Finished(call, old(output.Value()))
  {
    result := Finish(call, output);
    forall key | key in entries ensures Shows(entries[key], cache[key]) {
      assert Unshared(output, entries[key].output);
      assert old(Shows(entries[key], cache[key]));
    }
  }

  class AgentRouterApp {
    var candidates: Entries
    /** The cache as values. */
    ghost var view: Cache

    ghost predicate Valid()
      reads this, Outputs(candidates), Tables(candidates), Buffers(candidates)
    {
      Mirrors(candidates, view) && Every(Proper, view)
    }

    constructor ()
      ensures Valid() && view == map[]
    {
      candidates := map[];
      view := map[];
    }

    method Become(entries: Entries, ghost cache: Cache)
      requires Mirrors(entries, cache) && Every(Proper, cache)
      modifies this
      ensures candidates == entries && view == cache && Valid()
    {
      candidates := entries;
      view := cache;
    }

    method Forget(cfg: Config, key: string, now: int)
      requires Valid() && CacheOn(cfg) && !Live(view, key, now)
      modifies this
      ensures Valid() && view == Dropped(old(view), key, cfg, now)
    {
      MirrorsWithout(candidates, view, key);
      EveryDropped(Proper, view, key, cfg, now);
      Become(candidates - {key}, view - {key});
    }

    method CopyOf(key: string) returns (output: FlashOutput)
      requires Valid() && key in view
      ensures fresh(output.Parts()) && output.Valid() && output.Value() == view[key].output && output.candidates != []
    {
      assert Shows(candidates[key], view[key]) && Proper(key, view[key].output);
      output := candidates[key].output.Clone();
    }

    /** On a hit, a copy of the cached output; an expired entry is dropped. */
    method LoadCandidates(cfg: Config, key: string, now: int) returns (output: FlashOutput?)
      requires Valid()
      modifies this
      ensures Valid() && view == Dropped(old(view), key, cfg, now)
      ensures output == null ==> Lookup(old(view), key, cfg, now).None?
      ensures output != null ==>
                fresh(output.Parts()) && output.Valid() && output.candidates != [] && Apart(output, candidates)
      ensures output != null ==> Lookup(old(view), key, cfg, now) == Some(output.Value())
    {
      if !CacheOn(cfg) {
        return null;
      }
      assert key in candidates ==> Shows(candidates[key], view[key]);
      if key !in candidates || candidates[key].expiresAt <= now {
        Forget(cfg, key, now);
        return null;
      }
      output := CopyOf(key);
    }

    method Remember(cfg: Config, key: string, output: FlashOutput, now: int) returns (ghost victim: string)
      requires Valid() && output.Valid() && Proper(key, output.Value()) && Apart(output, candidates)
      modifies this
      ensures Valid() && view == Stored(old(view), key, old(output.Value()), cfg, now, victim)
      ensures Apart(output, candidates)
      ensures Evicts(old(view), key, old(output.Value()), cfg) ==> victim in old(view)
    {
      var after;
      after, victim := CacheCandidates(candidates, view, cfg, key, output, now);
      EveryStored(Proper, view, key, output.Value(), cfg, now, victim);
      Become(after, Stored(view, key, output.Value(), cfg, now, victim));
    }

    /** The classifier's candidates, remembered; null with the reason if there are none. */
    method AskClassifier(reply: Reply, cfg: Config, key: string, now: int)
      returns (output: FlashOutput?, reason: Reason, ghost victim: string)
      requires Valid()
      modifies this
      ensures Valid()
      ensures output == null ==> Classify(reply, cfg.topK) == Unusable(reason) && view == old(view)
      ensures output != null ==>
                fresh(output.Parts()) && output.Valid() && output.candidates != [] && Apart(output, candidates)
      ensures output != null ==>
                && Classify(reply, cfg.topK) == Usable(output.Value())
                && view == Stored(old(view), key, output.Value(), cfg, now, victim)
                && (Evicts(old(view), key, output.Value(), cfg) ==> victim in old(view))
    {
      output, reason, victim := null, InvalidSchema, "";
      match reply {
        case Unreachable => reason := ClassifierUnavailable;
        case Malformed =>
        case Decoded(raw) =>
          output := ParseRouteOutput(raw, cfg.topK);
          if output != null {
            victim := Remember(cfg, key, output, now);
          }
      }
    }

    /** A fresh output for the query, from the cache or from the classifier; null with the reason if there is none. */
    method FindCandidates(env: Env, call: Call) returns (output: FlashOutput?, reason: Reason, ghost victim: string)
      requires Valid()
      modifies this
      ensures Valid()
      ensures output == null ==> SecondLayer(env, call, old(view), view, None, reason, victim)
      ensures output != null ==>
                fresh(output.Parts()) && output.Valid() && output.candidates != [] && Apart(output, candidates)
      ensures output != null ==> SecondLayer(env, call, old(view), view, Some(output.Value()), reason, victim)
    {
      var key := Key(env, call.input.query, call.cfg.policyVersion);
      reason, victim := InvalidSchema, "";
      output := LoadCandidates(call.cfg, key, call.now);
      if output == null {
        output, reason, victim := AskClassifier(ReplyTo(env, call.input.query), call.cfg, key, call.now);
      }
    }

    /** One request: the answer and the new cache are those of the functional description. */
    method DecideIntentFunnel(env: Env, call: Call) returns (result: RouteResult, ghost victim: string)
      requires Valid()
      modifies this
      ensures Valid()
      ensures HoldsCandidates(old(view)) && Outcome(result, view) == Cached(env, call, old(view), victim)
      ensures VictimFits(env, Request(call, victim), old(view))
    {
      victim := "";
      ProperHolds(view);
      ghost var before := view;
      var guard := Guard(call.input.query, call.strategy, call.cfg);
      if guard.Some? {
        CachedCases(env, call, before, "");
        return guard.value, "";
      }
      var output, reason;
      output, reason, victim := FindCandidates(env, call);
      if output == null {
        SecondLayerIsCached(env, call, before, view, None, reason, victim);
        result := ConfirmRoute(reason);
      } else {
        SecondLayerIsCached(env, call, before, view, Some(output.Value()), reason, victim);
        result := FinishApart(call, output, candidates, view);
      }
    }
  }
}

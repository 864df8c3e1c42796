/**
 * The belief state machine (internal/ai/belief/fsm.go): levels, backtracking, the recorded
 * history, and the decision to report. Scores are real numbers.
 */
module Belief {
  import opened Sorting

  datatype FsmState = Drilling | Reporting | Done

  datatype Transition = Transition(
    source: FsmState, target: FsmState, fromLevel: int, toLevel: int, reason: string, atStep: int)

  datatype Fsm = Fsm(
    state: FsmState, level: int, levelSteps: map<int, int>, history: seq<Transition>, totalSteps: int)

  const INITIAL := Fsm(Drilling, 1, map[1 := 0], [], 0)

  datatype Op =
    | Tick(k: int)
    | Drill(reason: string)
    | Backtrack(level: int, reason: string)
    | MoveTo(state: FsmState, reason: string)

  function StepsAt(f: Fsm, level: int): int {
    if level in f.levelSteps then f.levelSteps[level] else 0
  }

  function Recorded(f: Fsm, target: FsmState, fromLevel: int, toLevel: int, reason: string): Fsm {
    f.(history := f.history + [Transition(f.state, target, fromLevel, toLevel, reason, f.totalSteps)], state := target)
  }

  predicate CanBacktrack(f: Fsm, level: int) {
    f.state == Drilling && 1 <= level < f.level
  }

  function Step(f: Fsm, op: Op): Fsm {
    match op
    case Tick(k) =>
      f.(totalSteps := f.totalSteps + k, levelSteps := f.levelSteps[f.level := StepsAt(f, f.level) + k])
    case Drill(reason) =>
      Recorded(f.(level := f.level + 1, levelSteps := f.levelSteps[f.level + 1 := 0]), Drilling, f.level, f.level + 1, reason)
    case Backtrack(level, reason) =>
      if !CanBacktrack(f, level) then f
      else
        var steps := if level in f.levelSteps then f.levelSteps else f.levelSteps[level := 0];
        Recorded(f.(level := level, levelSteps := steps), Drilling, f.level, level, reason)
    case MoveTo(state, reason) => Recorded(f, state, f.level, f.level, reason)
  }

  function After(ops: seq<Op>): Fsm {
    if ops == [] then INITIAL else Step(After(ops[..|ops| - 1]), ops[|ops| - 1])
  }

  // ---------------------------------------------------------------- history

  datatype Place = Place(state: FsmState, level: int)

  /** Follows a history from the start; none if a transition does not start where the one before ended. */
  datatype Walk = Broken | At(place: Place)

  function Replay(history: seq<Transition>): Walk {
    if history == [] then At(Place(Drilling, 1))
    else
      var t := history[|history| - 1];
      if Replay(history[..|history| - 1]) == At(Place(t.source, t.fromLevel)) then At(Place(t.target, t.toLevel))
      else Broken
  }

  lemma ReplaySnoc(history: seq<Transition>, t: Transition)
    requires Replay(history) == At(Place(t.source, t.fromLevel))
    ensures Replay(history + [t]) == At(Place(t.target, t.toLevel))
  {
    assert (history + [t])[..|history|] == history;
  }

  /** In every run the history chains, and replaying it ends in the current state and level. */
  lemma {:induction false} HistoryReplays(ops: seq<Op>)
    ensures Replay(After(ops).history) == At(Place(After(ops).state, After(ops).level))
  {
    if ops != [] {
      var f, g := After(ops[..|ops| - 1]), After(ops);
      HistoryReplays(ops[..|ops| - 1]);
      if |g.history| > |f.history| {
        ReplaySnoc(f.history, g.history[|f.history|]);
      }
    }
  }

  /** Consecutive transitions meet. */
  lemma {:induction false} ReplayChains(history: seq<Transition>, i: nat)
    requires Replay(history) != Broken && i < |history|
    ensures i == 0 ==> history[i].source == Drilling && history[i].fromLevel == 1
    ensures i > 0 ==> history[i].source == history[i - 1].target && history[i].fromLevel == history[i - 1].toLevel
  {
    var n := |history| - 1;
    if i < n {
      ReplayChains(history[..n], i);
    }
  }

  // ---------------------------------------------------------------- levels

  /** The level is positive, and so is every counted one; every level down to the current one is counted. */
  ghost predicate LevelsOpen(f: Fsm) {
    && f.level >= 1
    && (forall l | 1 <= l <= f.level :: l in f.levelSteps)
    && (forall l | l in f.levelSteps :: l >= 1)
  }

  lemma {:induction false} LevelsStayOpen(ops: seq<Op>)
    ensures LevelsOpen(After(ops))
  {
    if ops != [] {
      LevelsStayOpen(ops[..|ops| - 1]);
    }
  }

  /** Backtracking never meets a level without a step count. */
  lemma BacktrackFindsLevel(ops: seq<Op>, level: int)
    requires CanBacktrack(After(ops), level)
    ensures level in After(ops).levelSteps
  {
    LevelsStayOpen(ops);
  }

  // ---------------------------------------------------------------- step counts

  /** Steps counted for the levels up to `n`. */
  function SumTo(steps: map<int, int>, n: nat): int {
    if n == 0 then 0 else SumTo(steps, n - 1) + if n in steps then steps[n] else 0
  }

  lemma {:induction false} SumUpdate(steps: map<int, int>, n: nat, level: int, x: int)
    requires level >= 1
    ensures SumTo(steps[level := x], n) ==
            SumTo(steps, n) + if level <= n then x - (if level in steps then steps[level] else 0) else 0
  {
    if n > 0 {
      SumUpdate(steps, n - 1, level, x);
    }
  }

  /** Steps forgotten because drilling down starts a level again from zero. */
  function Forgotten(ops: seq<Op>): int {
    if ops == [] then 0
    else
      var f, op := After(ops[..|ops| - 1]), ops[|ops| - 1];
      Forgotten(ops[..|ops| - 1]) + if op.Drill? then StepsAt(f, f.level + 1) else 0
  }

  /** No level beyond the number of operations plus one has been opened. */
  ghost predicate Shallow(f: Fsm, n: nat) {
    f.level <= n && forall l | l in f.levelSteps :: l <= n
  }

  lemma {:induction false} StaysShallow(ops: seq<Op>)
    ensures Shallow(After(ops), |ops| + 1)
  {
    if ops != [] {
      StaysShallow(ops[..|ops| - 1]);
    }
  }

  /** Every step ticked is either counted for a level or forgotten by a new descent. */
  lemma {:induction false} StepsConserved(ops: seq<Op>, n: nat)
    requires n >= |ops| + 1
    ensures After(ops).totalSteps == SumTo(After(ops).levelSteps, n) + Forgotten(ops)
  {
    if ops == [] {
      SumUpdate(map[], n, 1, 0);
      SumEmpty(n);
    } else {
      var before, op := ops[..|ops| - 1], ops[|ops| - 1];
      var f := After(before);
      StepsConserved(before, n);
      LevelsStayOpen(before);
      StaysShallow(before);
      match op
      case Tick(k) => SumUpdate(f.levelSteps, n, f.level, StepsAt(f, f.level) + k);
      case Drill(_) => SumUpdate(f.levelSteps, n, f.level + 1, 0);
      case Backtrack(level, _) =>
      case MoveTo(_, _) =>
    }
  }

  lemma {:induction false} SumEmpty(n: nat)
    ensures SumTo(map[], n) == 0
  {
    if n > 0 {
      SumEmpty(n - 1);
    }
  }

  ghost predicate Forward(ops: seq<Op>) {
    forall i | 0 <= i < |ops| :: ops[i].Tick? ==> ops[i].k >= 0
  }

  lemma {:induction false} CountsNotNegative(ops: seq<Op>)
    requires Forward(ops)
    ensures forall l | l in After(ops).levelSteps :: After(ops).levelSteps[l] >= 0
    ensures Forgotten(ops) >= 0
  {
    if ops != [] {
      CountsNotNegative(ops[..|ops| - 1]);
    }
  }

  lemma {:induction false} SumNotNegative(steps: map<int, int>, m: nat, n: nat)
    requires (forall l | l in steps :: steps[l] >= 0) && m <= n
    ensures 0 <= SumTo(steps, m) <= SumTo(steps, n)
  {
    if n > m {
      SumNotNegative(steps, m, n - 1);
    } else if n > 0 {
      SumNotNegative(steps, m - 1, n - 1);
    }
  }

  /** As long as steps only move forward, the levels together never count more than the total. */
  lemma LevelsWithinTotal(ops: seq<Op>, n: nat)
    requires Forward(ops)
    ensures 0 <= SumTo(After(ops).levelSteps, n) <= After(ops).totalSteps
  {
    var m := n + |ops| + 1;
    StepsConserved(ops, m);
    CountsNotNegative(ops);
    SumNotNegative(After(ops).levelSteps, n, m);
  }

  // ---------------------------------------------------------------- the decision

  datatype Status = Active | Retracted | Superseded

  datatype Node = Node(id: string, hypothesis: bool, status: Status, level: int, score: real)

  datatype Edge = Edge(target: string, support: bool, status: Status)

  /** A graph as its maps are visited. */
  datatype Graph = Graph(nodes: seq<Node>, edges: seq<Edge>)

  datatype Thresholds = Thresholds(gapDelta: real, minSupport: int, maxSteps: int)

  datatype Candidate = Candidate(id: string, confidence: real)

  datatype Decision = AlreadyDone | NoCandidates | ReportGap(gap: real, support: int) | ReportSteps(steps: int) | Continue

  predicate Ahead(a: Candidate, b: Candidate) {
    a.confidence > b.confidence || (a.confidence == b.confidence && StringLeq(a.id, b.id))
  }

  predicate IsCandidate(n: Node, level: int) {
    n.hypothesis && n.status == Active && n.level == level
  }

  /** The active hypotheses of the level, in visiting order. */
  function CandidatesAt(nodes: seq<Node>, level: int): seq<Candidate> {
    if nodes == [] then []
    else
      var n := |nodes| - 1;
      CandidatesAt(nodes[..n], level) + if IsCandidate(nodes[n], level) then [Candidate(nodes[n].id, nodes[n].score)] else []
  }

  predicate Supports(e: Edge, id: string) {
    e.target == id && e.support && e.status == Active
  }

  function CountSupport(edges: seq<Edge>, id: string): nat {
    if edges == [] then 0
    else CountSupport(edges[..|edges| - 1], id) + if Supports(edges[|edges| - 1], id) then 1 else 0
  }

  function Gap(cs: seq<Candidate>): real
    requires cs != []
  {
    if |cs| < 2 then cs[0].confidence else cs[0].confidence - cs[1].confidence
  }

  function TopHypos(g: Graph, level: int): seq<Candidate> {
    SortBy(Ahead, CandidatesAt(g.nodes, level))
  }

  function Verdict(f: Fsm, t: Thresholds, g: Graph): Decision {
    if f.state == Done then AlreadyDone
    else
      var cs := TopHypos(g, f.level);
      if cs == [] then NoCandidates
      else
        var gap, support, steps := Gap(cs), CountSupport(g.edges, cs[0].id), StepsAt(f, f.level);
        if gap >= t.gapDelta && support >= t.minSupport then ReportGap(gap, support)
        else if steps >= t.maxSteps then ReportSteps(steps)
        else Continue
  }

  lemma AheadOrder()
    ensures Ordering(Ahead) && Antisymmetric(Ahead)
  {
    StringOrder();
  }

  lemma {:induction false} CandidatesSplit(a: seq<Node>, b: seq<Node>, level: int)
    ensures CandidatesAt(a + b, level) == CandidatesAt(a, level) + CandidatesAt(b, level)
  {
    if b == [] {
      assert a + b == a;
    } else {
      var n := |b| - 1;
      CandidatesSplit(a, b[..n], level);
      assert (a + b)[..|a| + n] == a + b[..n];
    }
  }

  lemma {:induction false} SupportSplit(a: seq<Edge>, b: seq<Edge>, id: string)
    ensures CountSupport(a + b, id) == CountSupport(a, id) + CountSupport(b, id)
  {
    if b == [] {
      assert a + b == a;
    } else {
      var n := |b| - 1;
      SupportSplit(a, b[..n], id);
      assert (a + b)[..|a| + n] == a + b[..n];
    }
  }

  lemma WithoutOne<T>(b: seq<T>, i: nat)
    requires i < |b|
    ensures b == b[..i] + [b[i]] + b[i + 1..]
    ensures multiset(b[..i] + b[i + 1..]) == multiset(b) - multiset{b[i]}
  {
    assert b == b[..i] + [b[i]] + b[i + 1..];
    assert multiset(b) == multiset(b[..i]) + multiset{b[i]} + multiset(b[i + 1..]);
  }

  /** Two arrangements of the same elements: the second has the last of the first somewhere. */
  lemma Locate<T>(a: seq<T>, b: seq<T>) returns (i: nat)
    requires a != [] && multiset(a) == multiset(b)
    ensures i < |b| && b[i] == a[|a| - 1]
    ensures multiset(a[..|a| - 1]) == multiset(b[..i] + b[i + 1..])
    ensures b == b[..i] + [b[i]] + b[i + 1..]
  {
    var n := |a| - 1;
    assert a[n] in multiset(b);
    i :| 0 <= i < |b| && b[i] == a[n];
    WithoutOne(a, n);
    WithoutOne(b, i);
    assert a[..n] + a[n + 1..] == a[..n];
  }

  lemma {:induction false} CandidatesPermute(a: seq<Node>, b: seq<Node>, level: int)
    requires multiset(a) == multiset(b)
    ensures multiset(CandidatesAt(a, level)) == multiset(CandidatesAt(b, level))
    decreases |a|
  {
    if a == [] {
      assert |multiset(b)| == 0;
    } else {
      var i := Locate(a, b);
      var front, back := b[..i], b[i + 1..];
      CandidatesPermute(a[..|a| - 1], front + back, level);
      CandidatesSplit(front, back, level);
      CandidatesSplit(front + [b[i]], back, level);
      CandidatesSplit(front, [b[i]], level);
      assert [b[i]][..0] == [];
    }
  }

  lemma {:induction false} SupportPermutes(a: seq<Edge>, b: seq<Edge>, id: string)
    requires multiset(a) == multiset(b)
    ensures CountSupport(a, id) == CountSupport(b, id)
    decreases |a|
  {
    if a == [] {
      assert |multiset(b)| == 0;
    } else {
      var i := Locate(a, b);
      var front, back := b[..i], b[i + 1..];
      SupportPermutes(a[..|a| - 1], front + back, id);
      SupportSplit(front, back, id);
      SupportSplit(front + [b[i]], back, id);
      SupportSplit(front, [b[i]], id);
      assert [b[i]][..0] == [];
    }
  }

  /** The decision is the same however the maps of the graph are visited. */
  lemma DecideIgnoresOrder(f: Fsm, t: Thresholds, g: Graph, h: Graph)
    requires multiset(g.nodes) == multiset(h.nodes) && multiset(g.edges) == multiset(h.edges)
    ensures Verdict(f, t, g) == Verdict(f, t, h)
  {
    CandidatesPermute(g.nodes, h.nodes, f.level);
    AheadOrder();
    SortIgnoresOrder(Ahead, CandidatesAt(g.nodes, f.level), CandidatesAt(h.nodes, f.level));
    var cs := TopHypos(g, f.level);
    if cs != [] {
      SupportPermutes(g.edges, h.edges, cs[0].id);
    }
  }

  /** A candidate ahead of all others, by at least `delta` if there are others, else by itself. */
  ghost predicate Leads(cs: seq<Candidate>, i: nat, delta: real) {
    && i < |cs|
    && (forall j | 0 <= j < |cs| && j != i :: Ahead(cs[i], cs[j]) && cs[i].confidence - cs[j].confidence >= delta)
    && (|cs| == 1 ==> cs[0].confidence >= delta)
  }

  /** The first of the sorted candidates, and the others as a bag. */
  lemma TopAndRest(cs: seq<Candidate>, i: nat)
    requires i < |cs| && cs[i] == SortBy(Ahead, cs)[0]
    ensures multiset(SortBy(Ahead, cs)[1..]) == multiset(cs[..i] + cs[i + 1..])
  {
    SortByPermutes(Ahead, cs);
    TailBag(SortBy(Ahead, cs));
    WithoutOne(cs, i);
  }

  lemma SortedTop(cs: seq<Candidate>) returns (i: nat)
    requires cs != []
    ensures i < |cs| && cs[i] == SortBy(Ahead, cs)[0]
  {
    SortByPermutes(Ahead, cs);
    InPermutation(SortBy(Ahead, cs), cs, SortBy(Ahead, cs)[0]);
    i :| 0 <= i < |cs| && cs[i] == SortBy(Ahead, cs)[0];
  }

  lemma OtherInRest(cs: seq<Candidate>, i: nat, j: nat)
    requires i < |cs| && j < |cs| && i != j
    ensures cs[j] in cs[..i] + cs[i + 1..]
  {
    var rest := cs[..i] + cs[i + 1..];
    assert rest[if j < i then j else j - 1] == cs[j];
  }

  /** A gap of at least `delta` means that the top candidate leads by it. */
  lemma GapLeads(cs: seq<Candidate>, i: nat, delta: real)
    requires i < |cs| && cs[i] == SortBy(Ahead, cs)[0] && Gap(SortBy(Ahead, cs)) >= delta
    ensures Leads(cs, i, delta)
  {
    var s := SortBy(Ahead, cs);
    AheadOrder();
    SortBySorted(Ahead, cs);
    TopAndRest(cs, i);
    forall j | 0 <= j < |cs| && j != i ensures Ahead(cs[i], cs[j]) && cs[i].confidence - cs[j].confidence >= delta {
      OtherInRest(cs, i, j);
      InPermutation(cs[..i] + cs[i + 1..], s[1..], cs[j]);
      var k :| 0 <= k < |s[1..]| && s[1..][k] == cs[j];
      assert Ahead(s[0], s[k + 1]);
      assert k > 0 ==> Ahead(s[1], s[k + 1]);
    }
  }

  /** A candidate that leads is the top one, and the gap is at least what it leads by. */
  lemma LeaderIsTop(cs: seq<Candidate>, i: nat, delta: real)
    requires Leads(cs, i, delta)
    ensures cs[i] == SortBy(Ahead, cs)[0] && Gap(SortBy(Ahead, cs)) >= delta
  {
    var s := SortBy(Ahead, cs);
    AheadOrder();
    SortBySorted(Ahead, cs);
    SortByPermutes(Ahead, cs);
    var t := SortedTop(cs);
    InPermutation(cs, s, cs[i]);
    SortedHead(Ahead, s, cs[i]);
    assert t != i ==> Ahead(cs[i], cs[t]);
    if |s| > 1 {
      TopAndRest(cs, i);
      assert s[1..][0] == s[1];
      InPermutation(s[1..], cs[..i] + cs[i + 1..], s[1]);
      var rest := cs[..i] + cs[i + 1..];
      var k :| 0 <= k < |rest| && rest[k] == s[1];
      assert rest[k] == cs[if k < i then k else k + 1];
    }
  }

  /** A report on the gap is made exactly when some candidate leads by it with enough support. */
  lemma ReportsGapExactly(f: Fsm, t: Thresholds, g: Graph)
    requires f.state != Done
    ensures var cs := CandidatesAt(g.nodes, f.level);
            Verdict(f, t, g).ReportGap? <==>
            exists i: nat :: Leads(cs, i, t.gapDelta) && CountSupport(g.edges, cs[i].id) >= t.minSupport
  {
    var cs := CandidatesAt(g.nodes, f.level);
    if Verdict(f, t, g).ReportGap? {
      var i := SortedTop(cs);
      GapLeads(cs, i, t.gapDelta);
    }
    if i: nat :| Leads(cs, i, t.gapDelta) && CountSupport(g.edges, cs[i].id) >= t.minSupport {
      LeaderIsTop(cs, i, t.gapDelta);
    }
  }

  // ---------------------------------------------------------------- the object

  class BeliefFsm {
    const thresholds: Thresholds
    var state: FsmState
    var currentLevel: int
    var levelSteps: map<int, int>
    var history: seq<Transition>
    var totalSteps: int
    /** Every operation so far. */
    ghost var ops: seq<Op>

    function Value(): Fsm
      reads this
    {
      Fsm(state, currentLevel, levelSteps, history, totalSteps)
    }

    ghost predicate Valid()
      reads this
    {
      Value() == After(ops)
    }

    constructor (thresholds: Thresholds)
      ensures Valid() && ops == [] && this.thresholds == thresholds
    {
      this.thresholds := thresholds;
      state, currentLevel, levelSteps, history, totalSteps := Drilling, 1, map[1 := 0], [], 0;
      ops := [];
    }

    method Record(target: FsmState, fromLevel: int, toLevel: int, reason: string)
      modifies this`history, this`state
      ensures Value() == Recorded(old(Value()), target, fromLevel, toLevel, reason)
    {
      history := history + [Transition(state, target, fromLevel, toLevel, reason, totalSteps)];
      state := target;
    }

    method TickStep(k: int)
      requires Valid()
      modifies this
      ensures Valid() && ops == old(ops) + [Tick(k)]
    {
      ops := ops + [Tick(k)];
      assert ops[..|ops| - 1] == old(ops);
      LevelsStayOpen(old(ops));
      totalSteps := totalSteps + k;
      levelSteps := levelSteps[currentLevel := levelSteps[currentLevel] + k];
    }

    method TransitionTo(target: FsmState, reason: string)
      requires Valid()
      modifies this
      ensures Valid() && ops == old(ops) + [MoveTo(target, reason)]
    {
      ops := ops + [MoveTo(target, reason)];
      assert ops[..|ops| - 1] == old(ops);
      Record(target, currentLevel, currentLevel, reason);
    }

    method DrillDown(reason: string)
      requires Valid()
      modifies this
      ensures Valid() && ops == old(ops) + [Drill(reason)]
    {
      ops := ops + [Drill(reason)];
      assert ops[..|ops| - 1] == old(ops);
      var fromLevel := currentLevel;
      currentLevel := currentLevel + 1;
      levelSteps := levelSteps[currentLevel := 0];
      Record(Drilling, fromLevel, currentLevel, reason);
    }

    method BacktrackTo(level: int, reason: string) returns (ok: bool)
      requires Valid()
      modifies this
      ensures Valid() && ops == old(ops) + [Backtrack(level, reason)]
      ensures ok == CanBacktrack(old(Value()), level)
      ensures !ok ==> Value() == old(Value())
    {
      ops := ops + [Backtrack(level, reason)];
      assert ops[..|ops| - 1] == old(ops);
      if state != Drilling || level < 1 || level >= currentLevel {
        return false;
      }
      var fromLevel := currentLevel;
      currentLevel := level;
      if level !in levelSteps {
        levelSteps := levelSteps[level := 0];
      }
      Record(Drilling, fromLevel, currentLevel, reason);
      ok := true;
    }

    method Decide(g: Graph) returns (d: Decision)
      ensures d == Verdict(Value(), thresholds, g)
    {
      if state == Done {
        return AlreadyDone;
      }
      var candidates: seq<Candidate> := [];
      for i := 0 to |g.nodes|
        invariant candidates == CandidatesAt(g.nodes[..i], currentLevel)
      {
        assert g.nodes[..i + 1][..i] == g.nodes[..i];
        if IsCandidate(g.nodes[i], currentLevel) {
          candidates := candidates + [Candidate(g.nodes[i].id, g.nodes[i].score)];
        }
      }
      assert g.nodes[..|g.nodes|] == g.nodes;
      var top := SortBy(Ahead, candidates);
      if top == [] {
        return NoCandidates;
      }
      var support := 0;
      for i := 0 to |g.edges|
        invariant support == CountSupport(g.edges[..i], top[0].id)
      {
        assert g.edges[..i + 1][..i] == g.edges[..i];
        if Supports(g.edges[i], top[0].id) {
          support := support + 1;
        }
      }
      assert g.edges[..|g.edges|] == g.edges;
      var steps := if currentLevel in levelSteps then levelSteps[currentLevel] else 0;
      if Gap(top) >= thresholds.gapDelta && support >= thresholds.minSupport {
        return ReportGap(Gap(top), support);
      }
      d := if steps >= thresholds.maxSteps then ReportSteps(steps) else Continue;
    }
  }
}

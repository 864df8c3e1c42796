/** Every answer of the belief machine, in terms of the graph's nodes and edges and of the operations so far. */
module BeliefDecisions {
  import opened Sorting
  import opened Belief

  // ---------------------------------------------------------------- what the operations amount to

  function Where(ops: seq<Op>): Place {
    if ops == [] then Place(Drilling, 1)
    else
      var p := Where(ops[..|ops| - 1]);
      match ops[|ops| - 1]
      case Tick(_) => p
      case Drill(_) => Place(Drilling, p.level + 1)
      case Backtrack(level, _) => if p.state == Drilling && 1 <= level < p.level then Place(Drilling, level) else p
      case MoveTo(state, _) => Place(state, p.level)
  }

  /** Steps ticked on a level since a descent last opened it; backtracking to it keeps them. */
  function StepsSince(ops: seq<Op>, level: int): int {
    if ops == [] then 0
    else
      var before, op := ops[..|ops| - 1], ops[|ops| - 1];
      if op.Tick? && Where(before).level == level then StepsSince(before, level) + op.k
      else if op.Drill? && Where(before).level + 1 == level then 0
      else StepsSince(before, level)
  }

  lemma {:induction false} MachineFollows(ops: seq<Op>, level: int)
    ensures Where(ops) == Place(After(ops).state, After(ops).level)
    ensures StepsAt(After(ops), level) == StepsSince(ops, level)
  {
    if ops != [] {
      MachineFollows(ops[..|ops| - 1], level);
    }
  }

  /** Backtracking succeeds exactly while drilling and to a level above, is then recorded, and else changes nothing. */
  lemma BacktracksExactly(ops: seq<Op>, level: int, reason: string)
    ensures var p, f, g := Where(ops), After(ops), After(ops + [Backtrack(level, reason)]);
            if p.state == Drilling && 1 <= level < p.level
            then g.history == f.history + [Transition(Drilling, Drilling, p.level, level, reason, f.totalSteps)]
            else g == f
  {
    MachineFollows(ops, level);
    assert (ops + [Backtrack(level, reason)])[..|ops|] == ops;
  }

  // ---------------------------------------------------------------- the graph

  /** Node `k` is an active hypothesis of the level. */
  predicate Competes(g: Graph, level: int, k: nat) {
    && k < |g.nodes|
    && g.nodes[k].hypothesis && g.nodes[k].status == Active && g.nodes[k].level == level
  }

  ghost predicate NoneCompetes(g: Graph, level: int) {
    forall k: nat | k < |g.nodes| :: !Competes(g, level, k)
  }

  ghost predicate AheadBy(a: Node, b: Node, delta: real) {
    a.score - b.score >= delta && (a.score > b.score || (a.score == b.score && StringLeq(a.id, b.id)))
  }

  /** Node `k` is ahead of every other competitor by `delta`, or has a score of `delta` if there is none. */
  ghost predicate Best(g: Graph, level: int, k: nat, delta: real) {
    && Competes(g, level, k)
    && (forall j: nat | Competes(g, level, j) && j != k :: AheadBy(g.nodes[k], g.nodes[j], delta))
    && ((forall j: nat | Competes(g, level, j) :: j == k) ==> g.nodes[k].score >= delta)
  }

  /** The active edges that support a node. */
  function SupportersOf(edges: seq<Edge>, id: string): set<nat> {
    set i: nat | i < |edges| && edges[i].target == id && edges[i].support && edges[i].status == Active
  }

  lemma {:induction false} SupportIsSize(edges: seq<Edge>, id: string)
    ensures CountSupport(edges, id) == |SupportersOf(edges, id)|
  {
    if edges == [] {
      assert SupportersOf(edges, id) == {};
    } else {
      var n := |edges| - 1;
      var front := edges[..n];
      SupportIsSize(front, id);
      if Supports(edges[n], id) {
        assert SupportersOf(edges, id) == SupportersOf(front, id) + {n};
      } else {
        assert SupportersOf(edges, id) == SupportersOf(front, id);
      }
    }
  }

  // ---------------------------------------------------------------- candidates are competitors

  /** Where a node's candidate stands in the list. */
  function Position(g: Graph, level: int, k: nat): nat
    requires k <= |g.nodes|
  {
    |CandidatesAt(g.nodes[..k], level)|
  }

  lemma CompetitorHasPosition(g: Graph, level: int, k: nat)
    requires Competes(g, level, k)
    ensures var cs := CandidatesAt(g.nodes, level);
            Position(g, level, k) < |cs| && cs[Position(g, level, k)] == Candidate(g.nodes[k].id, g.nodes[k].score)
  {
    var front := g.nodes[..k + 1];
    assert front[..k] == g.nodes[..k];
    CandidatesSplit(front, g.nodes[k + 1..], level);
    assert front + g.nodes[k + 1..] == g.nodes;
  }

  lemma PositionsDiffer(g: Graph, level: int, j: nat, k: nat)
    requires Competes(g, level, j) && Competes(g, level, k) && j < k
    ensures Position(g, level, j) < Position(g, level, k)
  {
    var front := g.nodes[..k];
    assert front[..j] == g.nodes[..j];
    CompetitorHasPosition(g.(nodes := front), level, j);
  }

  lemma {:induction false} PositionTaken(g: Graph, level: int, i: nat) returns (k: nat)
    requires i < |CandidatesAt(g.nodes, level)|
    ensures Competes(g, level, k) && Position(g, level, k) == i
    decreases |g.nodes|
  {
    var n := |g.nodes| - 1;
    var front := g.nodes[..n];
    if i < |CandidatesAt(front, level)| {
      k := PositionTaken(g.(nodes := front), level, i);
      assert front[..k] == g.nodes[..k];
    } else {
      k := n;
    }
  }

  lemma NodeLeads(g: Graph, level: int, k: nat, delta: real)
    requires Competes(g, level, k)
    ensures Leads(CandidatesAt(g.nodes, level), Position(g, level, k), delta) <==> Best(g, level, k, delta)
  {
    var cs, p := CandidatesAt(g.nodes, level), Position(g, level, k);
    CompetitorHasPosition(g, level, k);
    if Leads(cs, p, delta) {
      forall j: nat | Competes(g, level, j) && j != k ensures AheadBy(g.nodes[k], g.nodes[j], delta) {
        CompetitorHasPosition(g, level, j);
        OtherPosition(g, level, j, k);
        assert Ahead(cs[p], cs[Position(g, level, j)]);
      }
      if forall j: nat | Competes(g, level, j) :: j == k {
        OnlyOne(g, level, k);
      }
    }
    if Best(g, level, k, delta) {
      forall i | 0 <= i < |cs| && i != p ensures Ahead(cs[p], cs[i]) && cs[p].confidence - cs[i].confidence >= delta {
        var j := PositionTaken(g, level, i);
        CompetitorHasPosition(g, level, j);
        assert AheadBy(g.nodes[k], g.nodes[j], delta);
      }
      if |cs| == 1 {
        forall j: nat | Competes(g, level, j) ensures j == k {
          CompetitorHasPosition(g, level, j);
          if j != k {
            OtherPosition(g, level, j, k);
          }
        }
      }
    }
  }

  lemma OtherPosition(g: Graph, level: int, j: nat, k: nat)
    requires Competes(g, level, j) && Competes(g, level, k) && j != k
    ensures Position(g, level, j) != Position(g, level, k)
  {
    if j < k {
      PositionsDiffer(g, level, j, k);
    } else {
      PositionsDiffer(g, level, k, j);
    }
  }

  lemma OnlyOne(g: Graph, level: int, k: nat)
    requires Competes(g, level, k) && forall j: nat | Competes(g, level, j) :: j == k
    ensures |CandidatesAt(g.nodes, level)| == 1
  {
    CompetitorHasPosition(g, level, k);
    if |CandidatesAt(g.nodes, level)| > 1 {
      var j := PositionTaken(g, level, if Position(g, level, k) == 0 then 1 else 0);
    }
  }

  lemma NoneMeansNoCandidates(g: Graph, level: int)
    ensures NoneCompetes(g, level) <==> CandidatesAt(g.nodes, level) == []
  {
    if CandidatesAt(g.nodes, level) != [] {
      var k := PositionTaken(g, level, 0);
    }
    forall k: nat | Competes(g, level, k) ensures CandidatesAt(g.nodes, level) != [] {
      CompetitorHasPosition(g, level, k);
    }
  }

  // ---------------------------------------------------------------- the answers

  /** Node `k` leads by `delta` and has enough support. */
  ghost predicate Convinces(g: Graph, level: int, k: nat, delta: real, support: int) {
    Best(g, level, k, delta) && |SupportersOf(g.edges, g.nodes[k].id)| >= support
  }

  ghost predicate SomeConvinces(g: Graph, level: int, t: Thresholds) {
    exists k: nat :: Convinces(g, level, k, t.gapDelta, t.minSupport)
  }

  lemma ConvincesIsGap(f: Fsm, t: Thresholds, g: Graph)
    requires f.state != Done
    ensures Verdict(f, t, g).ReportGap? <==> SomeConvinces(g, f.level, t)
  {
    var cs := CandidatesAt(g.nodes, f.level);
    ReportsGapExactly(f, t, g);
    if Verdict(f, t, g).ReportGap? {
      var i: nat :| Leads(cs, i, t.gapDelta) && CountSupport(g.edges, cs[i].id) >= t.minSupport;
      var k := PositionTaken(g, f.level, i);
      CompetitorHasPosition(g, f.level, k);
      NodeLeads(g, f.level, k, t.gapDelta);
      SupportIsSize(g.edges, g.nodes[k].id);
      assert Convinces(g, f.level, k, t.gapDelta, t.minSupport);
    }
    if SomeConvinces(g, f.level, t) {
      var k: nat :| Convinces(g, f.level, k, t.gapDelta, t.minSupport);
      CompetitorHasPosition(g, f.level, k);
      NodeLeads(g, f.level, k, t.gapDelta);
      SupportIsSize(g.edges, g.nodes[k].id);
    }
  }

  /** What a report on the gap tells: the largest lead of the leading node, and its support. */
  lemma GapIsLargest(f: Fsm, t: Thresholds, g: Graph) returns (k: nat)
    requires Verdict(f, t, g).ReportGap?
    ensures var d := Verdict(f, t, g);
            && Best(g, f.level, k, d.gap) && d.support == |SupportersOf(g.edges, g.nodes[k].id)|
            && forall delta: real | Best(g, f.level, k, delta) :: delta <= d.gap
  {
    var cs := CandidatesAt(g.nodes, f.level);
    var i := SortedTop(cs);
    k := PositionTaken(g, f.level, i);
    var gap := Verdict(f, t, g).gap;
    CompetitorHasPosition(g, f.level, k);
    SupportIsSize(g.edges, g.nodes[k].id);
    GapLeads(cs, i, gap);
    NodeLeads(g, f.level, k, gap);
    forall delta: real | Best(g, f.level, k, delta) ensures delta <= gap {
      NodeLeads(g, f.level, k, delta);
      LeaderIsTop(cs, i, delta);
    }
  }

  /**
   * In every run: done once the machine is done; else no candidates if no active hypothesis is on the
   * level; else a report on the gap if one of them leads the others by it with enough support; else a
   * report on the steps if those ticked since the level was opened have reached the limit; else go on.
   */
  lemma DecidesExactly(ops: seq<Op>, t: Thresholds, g: Graph)
    ensures var d, level := Verdict(After(ops), t, g), Where(ops).level;
            var running, open := Where(ops).state != Done, !NoneCompetes(g, level);
            && (d.AlreadyDone? <==> !running)
            && (d.NoCandidates? <==> running && !open)
            && (d.ReportGap? <==> running && SomeConvinces(g, level, t))
            && (d.ReportSteps? <==> running && open && !SomeConvinces(g, level, t) && StepsSince(ops, level) >= t.maxSteps)
            && (d.Continue? <==> running && open && !SomeConvinces(g, level, t) && StepsSince(ops, level) < t.maxSteps)
            && (d.ReportSteps? ==> d.steps == StepsSince(ops, level))
  {
    var f := After(ops);
    MachineFollows(ops, f.level);
    NoneMeansNoCandidates(g, f.level);
    if f.state != Done {
      ConvincesIsGap(f, t, g);
    }
  }
}

/** Grouping of alerts by time (internal/ai/alertcorrelation/engine.go, `groupByTimeWindow`). */
module AlertGroups {
  import opened Sorting

  /** An alert: when it became active, and everything else about it. */
  datatype Alert = Alert(at: int, about: string)

  datatype Group = Group(start: int, end: int, alerts: seq<Alert>)

  function Max(a: int, b: int): int {
    if a < b then b else a
  }

  ghost predicate InTimeOrder(alerts: seq<Alert>) {
    forall i, j | 0 <= i < j < |alerts| :: alerts[i].at <= alerts[j].at
  }

  function NewGroup(a: Alert, window: int): Group {
    Group(a.at, a.at + window, [a])
  }

  function Joined(g: Group, a: Alert): Group {
    g.(end := Max(g.end, a.at), alerts := g.alerts + [a])
  }

  predicate Joins(g: Group, a: Alert, window: int) {
    a.at < g.end + window
  }

  /** The next alert joins the last group if it comes before the end of the window after it. */
  function Extend(groups: seq<Group>, a: Alert, window: int): seq<Group> {
    if groups == [] then [NewGroup(a, window)]
    else
      var n := |groups| - 1;
      if Joins(groups[n], a, window) then groups[..n] + [Joined(groups[n], a)] else groups + [NewGroup(a, window)]
  }

  function GroupsOf(alerts: seq<Alert>, window: int): seq<Group> {
    if alerts == [] then [] else Extend(GroupsOf(alerts[..|alerts| - 1], window), alerts[|alerts| - 1], window)
  }

  method GroupByTimeWindow(alerts: seq<Alert>, window: int) returns (groups: seq<Group>)
    ensures groups == GroupsOf(alerts, window)
  {
    if alerts == [] {
      return [];
    }
    groups := [];
    var current := NewGroup(alerts[0], window);
    assert alerts[..1][..0] == [];
    for i := 1 to |alerts|
      invariant groups + [current] == GroupsOf(alerts[..i], window)
    {
      var alert := alerts[i];
      assert alerts[..i + 1][..i] == alerts[..i];
      assert (groups + [current])[..|groups|] == groups;
      if Joins(current, alert, window) {
        current := Joined(current, alert);
      } else {
        groups := groups + [current];
        current := NewGroup(alert, window);
      }
    }
    assert alerts[..|alerts|] == alerts;
    groups := groups + [current];
  }

  // ---------------------------------------------------------------- what a grouping must be

  function Concat(groups: seq<Group>): seq<Alert> {
    if groups == [] then [] else Concat(groups[..|groups| - 1]) + groups[|groups| - 1].alerts
  }

  /** Each alert comes before the end of the window after what precedes it in the group. */
  ghost predicate Connected(g: Group, window: int) {
    forall i, j | 0 <= i && j == i + 1 < |g.alerts| ::
      g.alerts[j].at < Max(g.start + window, g.alerts[i].at) + window
  }

  ghost predicate Tight(g: Group, window: int) {
    && g.alerts != [] && g.start == g.alerts[0].at
    && g.end == Max(g.start + window, g.alerts[|g.alerts| - 1].at)
    && Connected(g, window)
  }

  /** Consecutive groups are at least a window apart. */
  ghost predicate Apart(groups: seq<Group>, window: int) {
    forall i, j | 0 <= i && j == i + 1 < |groups| :: groups[i].end + window <= groups[j].start
  }

  ghost predicate Proper(groups: seq<Group>, alerts: seq<Alert>, window: int) {
    && Concat(groups) == alerts
    && (forall i | 0 <= i < |groups| :: Tight(groups[i], window))
    && Apart(groups, window)
  }

  lemma ConcatSnoc(groups: seq<Group>, g: Group)
    ensures Concat(groups + [g]) == Concat(groups) + g.alerts
  {
    assert (groups + [g])[..|groups|] == groups;
  }

  // ---------------------------------------------------------------- the computed grouping

  /** The last alert overall is the last of the last group. */
  lemma LastOfConcat(groups: seq<Group>, alerts: seq<Alert>)
    requires Concat(groups) == alerts && groups != [] && groups[|groups| - 1].alerts != []
    ensures alerts != []
    ensures var g := groups[|groups| - 1]; g.alerts[|g.alerts| - 1] == alerts[|alerts| - 1]
  {
  }

  lemma JoinKeepsTight(g: Group, a: Alert, window: int)
    requires Tight(g, window) && g.alerts[|g.alerts| - 1].at <= a.at && Joins(g, a, window)
    ensures Tight(Joined(g, a), window)
  {
  }

  lemma NewIsTight(a: Alert, window: int)
    requires window > 0
    ensures Tight(NewGroup(a, window), window)
  {
  }

  lemma ReplaceLastApart(groups: seq<Group>, g: Group, window: int)
    requires groups != [] && Apart(groups, window) && g.start == groups[|groups| - 1].start
    ensures Apart(groups[..|groups| - 1] + [g], window)
  {
    var n := |groups| - 1;
    var r := groups[..n] + [g];
    forall i, j | 0 <= i && j == i + 1 < |r| ensures r[i].end + window <= r[j].start {
      assert groups[i].end + window <= groups[j].start;
    }
  }

  lemma ExtendKeepsProper(groups: seq<Group>, alerts: seq<Alert>, a: Alert, window: int)
    requires window > 0 && Proper(groups, alerts, window)
    requires alerts != [] ==> alerts[|alerts| - 1].at <= a.at
    ensures Proper(Extend(groups, a, window), alerts + [a], window)
  {
    if groups == [] {
      NewIsTight(a, window);
      ConcatSnoc([], NewGroup(a, window));
      assert [] + [NewGroup(a, window)] == [NewGroup(a, window)];
    } else {
      var n := |groups| - 1;
      var g := groups[n];
      LastOfConcat(groups, alerts);
      if Joins(g, a, window) {
        JoinKeepsTight(g, a, window);
        ReplaceLastApart(groups, Joined(g, a), window);
        ConcatSnoc(groups[..n], Joined(g, a));
        assert groups == groups[..n] + [g];
      } else {
        NewIsTight(a, window);
        ConcatSnoc(groups, NewGroup(a, window));
      }
    }
  }

  /** The groups partition the alerts, are connected, and are a window apart. */
  lemma {:induction false} GroupingIsProper(alerts: seq<Alert>, window: int)
    requires window > 0 && InTimeOrder(alerts)
    ensures Proper(GroupsOf(alerts, window), alerts, window)
  {
    if alerts != [] {
      var n := |alerts| - 1;
      GroupingIsProper(alerts[..n], window);
      assert alerts == alerts[..n] + [alerts[n]];
      ExtendKeepsProper(GroupsOf(alerts[..n], window), alerts[..n], alerts[n], window);
    }
  }

  // ---------------------------------------------------------------- uniqueness

  /** A group without its last alert. */
  function Shortened(g: Group, window: int): Group
    requires |g.alerts| > 1
  {
    var m := |g.alerts| - 1;
    Group(g.start, Max(g.start + window, g.alerts[m - 1].at), g.alerts[..m])
  }

  lemma ShortenedRejoins(g: Group, window: int)
    requires Tight(g, window) && |g.alerts| > 1 && InTimeOrder(g.alerts)
    ensures var a := g.alerts[|g.alerts| - 1]; var s := Shortened(g, window);
            Tight(s, window) && Joins(s, a, window) && Joined(s, a) == g
  {
    var m := |g.alerts| - 1;
    assert g.alerts == g.alerts[..m] + [g.alerts[m]];
    assert g.alerts[m - 1].at <= g.alerts[m].at;
  }

  lemma {:induction false} GroupInOrder(groups: seq<Group>, alerts: seq<Alert>)
    requires Concat(groups) == alerts && InTimeOrder(alerts) && groups != []
    ensures InTimeOrder(groups[|groups| - 1].alerts)
  {
    var before, last := Concat(groups[..|groups| - 1]), groups[|groups| - 1].alerts;
    forall i, j | 0 <= i < j < |last| ensures last[i].at <= last[j].at {
      assert alerts[|before| + i] == last[i] && alerts[|before| + j] == last[j];
    }
  }

  lemma NothingToGroup(groups: seq<Group>, window: int)
    requires Proper(groups, [], window)
    ensures groups == []
  {
    assert groups == [] || Tight(groups[|groups| - 1], window);
  }

  lemma ApartPrefix(groups: seq<Group>, window: int, n: nat)
    requires Apart(groups, window) && n <= |groups|
    ensures Apart(groups[..n], window)
  {
  }

  /** A proper grouping less its last alert, which extending puts back. */
  lemma Peel(groups: seq<Group>, alerts: seq<Alert>, window: int) returns (peeled: seq<Group>)
    requires window > 0 && Proper(groups, alerts, window) && InTimeOrder(alerts) && alerts != []
    ensures Proper(peeled, alerts[..|alerts| - 1], window)
    ensures Extend(peeled, alerts[|alerts| - 1], window) == groups
  {
    assert groups != [];
    var n := |groups| - 1;
    var g, front := groups[n], groups[..n];
    assert Tight(g, window);
    var m, a := |g.alerts| - 1, alerts[|alerts| - 1];
    assert groups == front + [g];
    LastOfConcat(groups, alerts);
    ApartPrefix(groups, window, n);
    if m == 0 {
      peeled := front;
      assert alerts[..|alerts| - 1] == Concat(front);
      assert g == NewGroup(a, window);
      if front != [] {
        assert groups[n - 1].end + window <= groups[n].start;
      }
    } else {
      GroupInOrder(groups, alerts);
      ShortenedRejoins(g, window);
      var s := Shortened(g, window);
      peeled := front + [s];
      ConcatSnoc(front, s);
      ReplaceLastApart(groups, s, window);
      assert g.alerts == g.alerts[..m] + [a];
      assert alerts[..|alerts| - 1] == Concat(front) + g.alerts[..m];
      assert peeled[..n] == front;
    }
  }

  /** No other list of groups with these boundaries exists. */
  lemma {:induction false} GroupingIsUnique(groups: seq<Group>, alerts: seq<Alert>, window: int)
    requires window > 0 && InTimeOrder(alerts) && Proper(groups, alerts, window)
    ensures groups == GroupsOf(alerts, window)
    decreases |alerts|
  {
    if alerts == [] {
      NothingToGroup(groups, window);
    } else {
      var peeled := Peel(groups, alerts, window);
      GroupingIsUnique(peeled, alerts[..|alerts| - 1], window);
    }
  }

  /** The computed grouping is the one proper grouping. */
  lemma ProperExactly(groups: seq<Group>, alerts: seq<Alert>, window: int)
    requires window > 0 && InTimeOrder(alerts)
    ensures Proper(groups, alerts, window) <==> groups == GroupsOf(alerts, window)
  {
    GroupingIsProper(alerts, window);
    if Proper(groups, alerts, window) {
      GroupingIsUnique(groups, alerts, window);
    }
  }

  /** Every alert lies in its group's own window. */
  lemma AlertInWindow(alerts: seq<Alert>, window: int, k: nat, i: nat)
    requires window > 0 && InTimeOrder(alerts)
    requires k < |GroupsOf(alerts, window)| && i < |GroupsOf(alerts, window)[k].alerts|
    ensures var g := GroupsOf(alerts, window)[k]; g.start <= g.alerts[i].at <= g.end
  {
    GroupingIsProper(alerts, window);
    AllInOrder(GroupsOf(alerts, window), alerts, k);
    assert Tight(GroupsOf(alerts, window)[k], window);
  }

  lemma {:induction false} AllInOrder(groups: seq<Group>, alerts: seq<Alert>, k: nat)
    requires Concat(groups) == alerts && InTimeOrder(alerts) && k < |groups|
    ensures InTimeOrder(groups[k].alerts)
  {
    var n := |groups| - 1;
    if k == n {
      GroupInOrder(groups, alerts);
    } else {
      var before := Concat(groups[..n]);
      assert forall i | 0 <= i < |before| :: before[i] == alerts[i];
      AllInOrder(groups[..n], before, k);
    }
  }

  // ---------------------------------------------------------------- unstable sorting

  /** What a group looks like without its alerts. */
  datatype Bounds = Bounds(start: int, end: int, size: nat)

  function BoundsOf(groups: seq<Group>): (bs: seq<Bounds>)
    ensures |bs| == |groups|
    ensures forall i | 0 <= i < |groups| :: bs[i] == Bounds(groups[i].start, groups[i].end, |groups[i].alerts|)
  {
    seq(|groups|, i requires 0 <= i < |groups| => Bounds(groups[i].start, groups[i].end, |groups[i].alerts|))
  }

  function Times(alerts: seq<Alert>): (ts: seq<int>)
    ensures |ts| == |alerts|
    ensures forall i | 0 <= i < |alerts| :: ts[i] == alerts[i].at
  {
    seq(|alerts|, i requires 0 <= i < |alerts| => alerts[i].at)
  }

  lemma ExtendBounds(g: seq<Group>, h: seq<Group>, a: Alert, b: Alert, window: int)
    requires BoundsOf(g) == BoundsOf(h) && a.at == b.at
    ensures BoundsOf(Extend(g, a, window)) == BoundsOf(Extend(h, b, window))
  {
    if g != [] {
      assert BoundsOf(g)[|g| - 1] == BoundsOf(h)[|h| - 1];
      forall i | 0 <= i < |g| ensures g[i].start == h[i].start && g[i].end == h[i].end && |g[i].alerts| == |h[i].alerts| {
        assert BoundsOf(g)[i] == BoundsOf(h)[i];
      }
    }
  }

  /** Boundaries and sizes depend on the times alone, so it does not matter how a sort orders simultaneous alerts. */
  lemma {:induction false} TiesDoNotMatter(a: seq<Alert>, b: seq<Alert>, window: int)
    requires Times(a) == Times(b)
    ensures BoundsOf(GroupsOf(a, window)) == BoundsOf(GroupsOf(b, window))
    decreases |a|
  {
    assert |a| == |b|;
    if a != [] {
      var n := |a| - 1;
      assert Times(a[..n]) == Times(a)[..n] == Times(b)[..n] == Times(b[..n]);
      assert Times(a)[n] == Times(b)[n];
      TiesDoNotMatter(a[..n], b[..n], window);
      ExtendBounds(GroupsOf(a[..n], window), GroupsOf(b[..n], window), a[n], b[n], window);
    }
  }
}

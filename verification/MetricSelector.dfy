/** The loops of the metric selection, with their sets of keys and values. */
module MetricSelector {
  import opened Sorting
  import opened MetricSelection

  ghost predicate KeysOf(keys: set<SignalKey>, selected: seq<Signal>) {
    forall k: SignalKey :: k in keys <==> HasKey(selected, k)
  }

  lemma KeysOfSnoc(keys: set<SignalKey>, selected: seq<Signal>, s: Signal)
    requires KeysOf(keys, selected)
    ensures KeysOf(keys + {Key(s)}, selected + [s])
  {
    var longer := selected + [s];
    forall k: SignalKey ensures k in keys + {Key(s)} <==> HasKey(longer, k) {
      if HasKey(selected, k) {
        HasKeyGrows(selected, longer, k);
      }
      if k == Key(s) {
        assert Key(longer[|selected|]) == k;
      }
      if HasKey(longer, k) && k != Key(s) {
        var i :| 0 <= i < |longer| && Key(longer[i]) == k;
        assert Key(selected[i]) == k;
      }
    }
  }

  /** One pass over the ranking that takes at most one signal per value of the dimension. */
  method DiversityPass(
      ranked: seq<Signal>, dimension: Signal -> string, limit: int, start: seq<Signal>, startKeys: set<SignalKey>)
    returns (selected: seq<Signal>, keys: set<SignalKey>)
    requires |start| < limit && KeysOf(startKeys, start)
    ensures selected == Diversify(ranked, dimension, limit, start, {}) && KeysOf(keys, selected)
  {
    selected, keys := start, startKeys;
    var values: set<string> := {};
    for i := 0 to |ranked|
      invariant |selected| < limit && KeysOf(keys, selected)
      invariant Diversify(ranked, dimension, limit, start, {}) ==
                Diversify(ranked[i..], dimension, limit, selected, values)
    {
      var signal := ranked[i];
      assert ranked[i..][1..] == ranked[i + 1..];
      if Key(signal) !in keys && dimension(signal) !in values {
        KeysOfSnoc(keys, selected, signal);
        selected, keys, values := selected + [signal], keys + {Key(signal)}, values + {dimension(signal)};
        if |selected| >= limit {
          return;
        }
      }
    }
  }

  method FillPass(ranked: seq<Signal>, limit: int, start: seq<Signal>, startKeys: set<SignalKey>)
    returns (selected: seq<Signal>)
    requires |start| < limit && KeysOf(startKeys, start)
    ensures selected == Fill(ranked, limit, start)
  {
    selected := start;
    var keys := startKeys;
    for i := 0 to |ranked|
      invariant |selected| < limit && KeysOf(keys, selected)
      invariant Fill(ranked, limit, start) == Fill(ranked[i..], limit, selected)
    {
      var signal := ranked[i];
      assert ranked[i..][1..] == ranked[i + 1..];
      if Key(signal) !in keys {
        KeysOfSnoc(keys, selected, signal);
        selected, keys := selected + [signal], keys + {Key(signal)};
        if |selected| >= limit {
          return;
        }
      }
    }
  }

  /** How often each family occurs. */
  method FamilyCounts(signals: seq<Signal>) returns (counts: map<Family, nat>)
    ensures forall f: Family :: CountOf(Families(signals), f) == if f in counts then counts[f] else 0
  {
    counts := map[];
    var fs := Families(signals);
    for i := 0 to |signals|
      invariant forall f: Family :: CountOf(fs[..i], f) == if f in counts then counts[f] else 0
    {
      var f := FamilyOf(signals[i]);
      assert fs[..i + 1][..i] == fs[..i] && fs[..i + 1][i] == f;
      counts := counts[f := (if f in counts then counts[f] else 0) + 1];
    }
    assert fs[..|signals|] == fs;
  }

  /** The last signal whose family is represented more than once, else the last signal. */
  method FindReplaceable(selected: seq<Signal>) returns (index: nat)
    requires selected != []
    ensures index == ReplaceIndex(Families(selected))
  {
    var counts := FamilyCounts(selected);
    var fs := Families(selected);
    var n := |selected|;
    while n > 0
      invariant 0 <= n <= |selected|
      invariant LastSpare(fs, |selected|) == LastSpare(fs, n)
    {
      var f := FamilyOf(selected[n - 1]);
      if (if f in counts then counts[f] else 0) > 1 {
        return n - 1;
      }
      n := n - 1;
    }
    index := |selected| - 1;
  }

  method EnsureFamilyCoverage(start: seq<Signal>, ranked: seq<Signal>) returns (selected: seq<Signal>)
    ensures selected == Cover(start, ranked, REQUIRED)
  {
    selected := start;
    if selected == [] {
      CoverNothing(ranked, REQUIRED);
      return;
    }
    var available := Families(ranked);
    for k := 0 to |REQUIRED|
      invariant |selected| == |start|
      invariant Cover(start, ranked, REQUIRED) == Cover(selected, ranked, REQUIRED[k..])
    {
      var family := REQUIRED[k];
      assert REQUIRED[k..][1..] == REQUIRED[k + 1..];
      if family in available && family !in Families(selected) {
        var candidate := ranked[FirstOf(available, family)];
        var index := FindReplaceable(selected);
        selected := selected[index := candidate];
      }
    }
  }

  lemma {:induction false} CoverNothing(ranked: seq<Signal>, families: seq<Family>)
    ensures Cover([], ranked, families) == []
    decreases |families|
  {
    if families != [] {
      CoverNothing(ranked, families[1..]);
    }
  }

  /** The selection as it is computed is the one whose coverage and fairness are proved. */
  method SelectMetricSignals(signals: seq<Signal>, limit: int) returns (result: seq<Signal>)
    ensures result == Selection(signals, limit)
  {
    if limit <= 0 {
      return [];
    }
    var ranked := Ranked(signals);
    assert KeysOf({}, []);
    var selected, keys := DiversityPass(ranked, EntityOf, limit, [], {});
    if |selected| < limit {
      selected, keys := DiversityPass(ranked, MetricOf, limit, selected, keys);
    }
    if |selected| < limit {
      selected := FillPass(ranked, limit, selected, keys);
    }
    result := EnsureFamilyCoverage(selected, ranked);
  }
}

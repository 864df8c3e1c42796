/** The limits for which the family repair of the metric selection succeeds. */
module MetricLimits {
  import opened Text
  import opened Sorting
  import opened MetricSelection

  const SOURCES :=
    ["host", "infra_disk", "pod_cart", "infra_pod", "infra_node", "infra_tidb", "infra_tikv", "infra_pd"]
  const FAMILIES := [Other, InfraOther, Apm, InfraPod, InfraNode, InfraTidb, InfraTikv, InfraPd]

  /** Eight signals of as many families and entities, best first. */
  function Witness(i: nat): Signal
    requires i < 8
  {
    Signal((8 - i) as real, seq(i, k => 'a'), "m", SOURCES[i])
  }

  function Witnesses(): (ws: seq<Signal>)
    ensures |ws| == 8
    ensures forall i | 0 <= i < 8 :: ws[i] == Witness(i)
  {
    seq(8, i requires 0 <= i < 8 => Witness(i))
  }

  lemma NotPrefix(s: string, p: string, i: nat)
    requires i < |p| && (i < |s| ==> s[i] != p[i])
    ensures !StartsWith(s, p)
  {
  }

  lemma WitnessFamily(i: nat)
    requires i < 8
    ensures FamilyOf(Witness(i)) == FAMILIES[i]
  {
    var s := SOURCES[i];
    LowerFixes(s);
    if i == 0 {
      NotPrefix(s, "infra_pod", 0);
      NotPrefix(s, "infra_node", 0);
      NotPrefix(s, "infra_tidb", 0);
      NotPrefix(s, "infra_tikv", 0);
      NotPrefix(s, "infra_pd", 0);
      NotPrefix(s, "service_", 0);
      NotPrefix(s, "pod_", 0);
      NotPrefix(s, "infra_", 0);
    } else if i == 1 {
      NotPrefix(s, "infra_pod", 6);
      NotPrefix(s, "infra_node", 6);
      NotPrefix(s, "infra_tidb", 6);
      NotPrefix(s, "infra_tikv", 6);
      NotPrefix(s, "infra_pd", 6);
      NotPrefix(s, "service_", 0);
      NotPrefix(s, "pod_", 0);
    } else if i == 2 {
      NotPrefix(s, "infra_pod", 0);
      NotPrefix(s, "infra_node", 0);
      NotPrefix(s, "infra_tidb", 0);
      NotPrefix(s, "infra_tikv", 0);
      NotPrefix(s, "infra_pd", 0);
    } else if i > 3 {
      NotPrefix(s, "infra_pod", if i == 7 then 7 else 6);
      if i > 4 {
        NotPrefix(s, "infra_node", 6);
      }
      if i > 5 {
        NotPrefix(s, "infra_tidb", if i == 6 then 8 else 6);
      }
      if i > 6 {
        NotPrefix(s, "infra_tikv", 6);
      }
    }
  }

  lemma WitnessFamilies()
    ensures Families(Witnesses()) == FAMILIES
  {
    forall i | 0 <= i < 8 ensures Families(Witnesses())[i] == FAMILIES[i] {
      WitnessFamily(i);
    }
  }

  lemma WitnessesRanked()
    ensures Ranked(Witnesses()) == Witnesses()
  {
    assert Sorted(Outranks, Witnesses());
    SortedStays(Outranks, Witnesses());
  }

  /** With entities all different the first pass just takes the best. */
  lemma {:induction false} TakesBest(rest: seq<Signal>, limit: int, selected: seq<Signal>, values: set<string>)
    requires |selected| < limit <= |selected| + |rest| && EntitiesDistinct(selected + rest)
    requires forall e | e in values :: HasEntity(selected, e)
    ensures Diversify(rest, EntityOf, limit, selected, values) == (selected + rest)[..limit]
    decreases |rest|
  {
    var s, longer := rest[0], selected + [rest[0]];
    assert (selected + rest)[|selected|] == s;
    forall i | 0 <= i < |selected| ensures selected[i].entity != s.entity {
      assert (selected + rest)[i] == selected[i];
    }
    assert longer + rest[1..] == selected + rest;
    if |longer| < limit {
      forall e | e in values + {s.entity} ensures HasEntity(longer, e) {
        if e == s.entity {
          assert longer[|selected|].entity == e;
        } else {
          var i :| 0 <= i < |selected| && selected[i].entity == e;
          assert longer[i].entity == e;
        }
      }
      TakesBest(rest[1..], limit, longer, values + {s.entity});
    } else {
      assert longer == (selected + rest)[..limit];
    }
  }

  lemma WitnessesPicked(limit: int)
    requires 1 <= limit <= 8
    ensures Picked(Witnesses(), limit) == Witnesses()[..limit]
  {
    var ws := Witnesses();
    assert [] + ws == ws;
    forall i, j | 0 <= i < j < 8 ensures ws[i].entity != ws[j].entity {
      assert |ws[i].entity| == i && |ws[j].entity| == j;
    }
    TakesBest(ws, limit, [], {});
  }

  // ---------------------------------------------------------------- repairs without a spare

  lemma {:induction false} NoSpare(fs: seq<Family>)
    requires Distinct(fs)
    ensures forall i | 0 <= i < |fs| :: CountOf(fs, fs[i]) <= 1
  {
    forall i | 0 <= i < |fs| ensures CountOf(fs, fs[i]) <= 1 {
      DistinctCount(fs, fs[i]);
    }
  }

  lemma {:induction false} DistinctCount(fs: seq<Family>, f: Family)
    requires Distinct(fs)
    ensures CountOf(fs, f) <= 1
  {
    if fs != [] {
      var n := |fs| - 1;
      DistinctCount(fs[..n], f);
      CountMeans(fs[..n], fs[n]);
      assert forall i | 0 <= i < n :: fs[..n][i] == fs[i] != fs[n];
    }
  }

  /** Among different families only the last one is ever replaced. */
  lemma RepairsLast(fs: seq<Family>, available: seq<Family>, f: Family)
    requires Distinct(fs) && fs != []
    ensures var r := Repaired(fs, available, f); Distinct(r) && r[..|fs| - 1] == fs[..|fs| - 1]
  {
    NoSpare(fs);
    assert ReplaceIndex(fs) == |fs| - 1;
  }

  lemma {:induction false} AllRepairsLast(fs: seq<Family>, available: seq<Family>, families: seq<Family>)
    requires Distinct(fs) && fs != []
    ensures var r := AllRepaired(fs, available, families); r[..|fs| - 1] == fs[..|fs| - 1]
    decreases |families|
  {
    if families != [] {
      RepairsLast(fs, available, families[0]);
      AllRepairsLast(Repaired(fs, available, families[0]), available, families[1..]);
    }
  }

  lemma LastTwoMissed(limit: int, r: seq<Family>)
    requires 1 <= limit <= 7 && |r| == limit && r[..limit - 1] == FAMILIES[..limit - 1]
    ensures InfraTikv !in r || InfraPd !in r
  {
    forall i | 0 <= i < limit - 1 ensures r[i] == FAMILIES[i] {
      assert r[i] == r[..limit - 1][i];
    }
    if r[limit - 1] == InfraTikv {
      assert forall i | 0 <= i < limit :: r[i] != InfraPd;
    } else {
      assert forall i | 0 <= i < limit :: r[i] != InfraTikv;
    }
  }

  lemma Uncovered(selected: seq<Signal>, f: Family)
    requires f == InfraTikv || f == InfraPd
    requires f !in Families(selected)
    ensures !Covers(selected, Witnesses())
  {
    WitnessFamilies();
    assert REQUIRED[4] == FAMILIES[6] == InfraTikv && REQUIRED[5] == FAMILIES[7] == InfraPd;
    assert f in REQUIRED && f in Families(Witnesses());
  }

  lemma FirstFamilies(limit: int)
    requires 0 <= limit <= 8
    ensures Families(Witnesses()[..limit]) == FAMILIES[..limit]
  {
    WitnessFamilies();
    forall i | 0 <= i < limit ensures Families(Witnesses()[..limit])[i] == FAMILIES[..limit][i] {
      assert Witnesses()[..limit][i] == Witnesses()[i] && Families(Witnesses())[i] == FAMILIES[i];
    }
  }

  lemma SelectionRepairs(signals: seq<Signal>, limit: int)
    requires limit > 0 && Ranked(signals) == signals
    ensures Families(Selection(signals, limit)) ==
            AllRepaired(Families(Picked(signals, limit)), Families(signals), REQUIRED)
  {
    CoverRepairs(Picked(signals, limit), signals, REQUIRED);
  }

  lemma WitnessSelection(limit: int)
    requires 1 <= limit <= 7
    ensures Families(Selection(Witnesses(), limit)) == AllRepaired(FAMILIES[..limit], FAMILIES, REQUIRED)
  {
    WitnessesRanked();
    WitnessesPicked(limit);
    WitnessFamilies();
    FirstFamilies(limit);
    SelectionRepairs(Witnesses(), limit);
  }

  lemma WitnessPrefix(limit: int)
    requires 1 <= limit <= 7
    ensures AllRepaired(FAMILIES[..limit], FAMILIES, REQUIRED)[..limit - 1] == FAMILIES[..limit - 1]
  {
    AllRepairsLast(FAMILIES[..limit], FAMILIES, REQUIRED);
    assert FAMILIES[..limit][..limit - 1] == FAMILIES[..limit - 1];
  }

  lemma SevenMiss(limit: int)
    requires 1 <= limit <= 7
    ensures !Covers(Selection(Witnesses(), limit), Witnesses())
  {
    var r := AllRepaired(FAMILIES[..limit], FAMILIES, REQUIRED);
    WitnessSelection(limit);
    WitnessPrefix(limit);
    LastTwoMissed(limit, r);
    Uncovered(Selection(Witnesses(), limit), if InfraTikv !in r then InfraTikv else InfraPd);
  }

  ghost predicate AlwaysCovers(limit: int) {
    forall signals: seq<Signal> :: Covers(Selection(signals, limit), signals)
  }

  /** The repair brings in every required family on every input exactly from a limit of eight on. */
  lemma CoversExactly(limit: int)
    ensures AlwaysCovers(limit) <==> limit >= 8
  {
    if limit >= 8 {
      forall signals: seq<Signal> ensures Covers(Selection(signals, limit), signals) {
        EightSuffice(signals, limit);
      }
    } else if limit >= 1 {
      SevenMiss(limit);
    } else {
      Uncovered(Selection(Witnesses(), limit), InfraPd);
    }
  }
}

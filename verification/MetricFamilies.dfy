/** Coverage of the source families in terms of the names of the source files. */
module MetricFamilies {
  import opened Text
  import opened MetricSelection
  import opened MetricLimits

  /** The source's name starts with the prefix, in whatever case. */
  predicate Named(source: string, prefix: string) {
    StartsWith(Lower(source), prefix)
  }

  predicate ApmNamed(source: string) {
    Named(source, "service_") || Named(source, "pod_")
  }

  lemma PrefixChar(s: string, prefix: string, i: nat)
    requires StartsWith(s, prefix) && i < |prefix|
    ensures i < |s| && s[i] == prefix[i]
  {
    assert s[..|prefix|][i] == s[i];
  }

  /** Two prefixes that differ somewhere do not start the same name. */
  lemma PrefixesApart(s: string, p: string, q: string, i: nat)
    requires i < |p| && i < |q| && p[i] != q[i]
    ensures !(StartsWith(s, p) && StartsWith(s, q))
  {
    if StartsWith(s, p) && StartsWith(s, q) {
      PrefixChar(s, p, i);
      PrefixChar(s, q, i);
    }
  }

  lemma InfraApart(s: string)
    ensures StartsWith(s, "infra_pod") ==>
              !StartsWith(s, "infra_node") && !StartsWith(s, "infra_tidb") && !StartsWith(s, "infra_tikv") && !StartsWith(s, "infra_pd")
    ensures StartsWith(s, "infra_node") ==>
              !StartsWith(s, "infra_tidb") && !StartsWith(s, "infra_tikv") && !StartsWith(s, "infra_pd")
    ensures StartsWith(s, "infra_tidb") ==> !StartsWith(s, "infra_tikv") && !StartsWith(s, "infra_pd")
    ensures StartsWith(s, "infra_tikv") ==> !StartsWith(s, "infra_pd")
  {
    PrefixesApart(s, "infra_pod", "infra_node", 6);
    PrefixesApart(s, "infra_pod", "infra_tidb", 6);
    PrefixesApart(s, "infra_pod", "infra_tikv", 6);
    PrefixesApart(s, "infra_pod", "infra_pd", 7);
    PrefixesApart(s, "infra_node", "infra_tidb", 6);
    PrefixesApart(s, "infra_node", "infra_tikv", 6);
    PrefixesApart(s, "infra_node", "infra_pd", 6);
    PrefixesApart(s, "infra_tidb", "infra_tikv", 8);
    PrefixesApart(s, "infra_tidb", "infra_pd", 6);
    PrefixesApart(s, "infra_tikv", "infra_pd", 6);
  }

  lemma ApmApart(s: string, infra: string)
    requires |infra| > 0 && infra[0] == 'i'
    ensures StartsWith(s, infra) ==> !StartsWith(s, "service_") && !StartsWith(s, "pod_")
  {
    PrefixesApart(s, infra, "service_", 0);
    PrefixesApart(s, infra, "pod_", 0);
  }

  /** Which names give each required family. */
  lemma FamilyExactly(source: string)
    ensures SourceFamily(source) == Apm <==> ApmNamed(source)
    ensures SourceFamily(source) == InfraPod <==> Named(source, "infra_pod")
    ensures SourceFamily(source) == InfraNode <==> Named(source, "infra_node")
    ensures SourceFamily(source) == InfraTidb <==> Named(source, "infra_tidb")
    ensures SourceFamily(source) == InfraTikv <==> Named(source, "infra_tikv")
    ensures SourceFamily(source) == InfraPd <==> Named(source, "infra_pd")
  {
    var name := Lower(source);
    InfraApart(name);
    ApmApart(name, "infra_pod");
    ApmApart(name, "infra_node");
    ApmApart(name, "infra_tidb");
    ApmApart(name, "infra_tikv");
    ApmApart(name, "infra_pd");
  }

  ghost predicate SomeNamed(signals: seq<Signal>, prefix: string) {
    exists i | 0 <= i < |signals| :: Named(signals[i].source, prefix)
  }

  /** Whatever kind of source the input has, the selection has. */
  ghost predicate CoversNames(selected: seq<Signal>, signals: seq<Signal>) {
    && (SomeNamed(signals, "service_") || SomeNamed(signals, "pod_") ==>
          SomeNamed(selected, "service_") || SomeNamed(selected, "pod_"))
    && (SomeNamed(signals, "infra_pod") ==> SomeNamed(selected, "infra_pod"))
    && (SomeNamed(signals, "infra_node") ==> SomeNamed(selected, "infra_node"))
    && (SomeNamed(signals, "infra_tidb") ==> SomeNamed(selected, "infra_tidb"))
    && (SomeNamed(signals, "infra_tikv") ==> SomeNamed(selected, "infra_tikv"))
    && (SomeNamed(signals, "infra_pd") ==> SomeNamed(selected, "infra_pd"))
  }

  lemma FamilyPresent(signals: seq<Signal>, f: Family, prefix: string)
    requires forall i | 0 <= i < |signals| :: FamilyOf(signals[i]) == f <==> Named(signals[i].source, prefix)
    ensures f in Families(signals) <==> SomeNamed(signals, prefix)
  {
    if SomeNamed(signals, prefix) {
      var i :| 0 <= i < |signals| && Named(signals[i].source, prefix);
      assert Families(signals)[i] == f;
    }
  }

  lemma ApmPresent(signals: seq<Signal>)
    ensures Apm in Families(signals) <==> SomeNamed(signals, "service_") || SomeNamed(signals, "pod_")
  {
    if i :| 0 <= i < |signals| && ApmNamed(signals[i].source) {
      FamilyExactly(signals[i].source);
      assert Families(signals)[i] == Apm;
    }
    if Apm in Families(signals) {
      var i :| 0 <= i < |signals| && Families(signals)[i] == Apm;
      FamilyExactly(signals[i].source);
    }
  }

  lemma FamiliesPresent(signals: seq<Signal>)
    ensures Apm in Families(signals) <==> SomeNamed(signals, "service_") || SomeNamed(signals, "pod_")
    ensures InfraPod in Families(signals) <==> SomeNamed(signals, "infra_pod")
    ensures InfraNode in Families(signals) <==> SomeNamed(signals, "infra_node")
    ensures InfraTidb in Families(signals) <==> SomeNamed(signals, "infra_tidb")
    ensures InfraTikv in Families(signals) <==> SomeNamed(signals, "infra_tikv")
    ensures InfraPd in Families(signals) <==> SomeNamed(signals, "infra_pd")
  {
    forall i | 0 <= i < |signals|
      ensures FamilyOf(signals[i]) == InfraPod <==> Named(signals[i].source, "infra_pod")
      ensures FamilyOf(signals[i]) == InfraNode <==> Named(signals[i].source, "infra_node")
      ensures FamilyOf(signals[i]) == InfraTidb <==> Named(signals[i].source, "infra_tidb")
      ensures FamilyOf(signals[i]) == InfraTikv <==> Named(signals[i].source, "infra_tikv")
      ensures FamilyOf(signals[i]) == InfraPd <==> Named(signals[i].source, "infra_pd")
    {
      FamilyExactly(signals[i].source);
    }
    ApmPresent(signals);
    FamilyPresent(signals, InfraPod, "infra_pod");
    FamilyPresent(signals, InfraNode, "infra_node");
    FamilyPresent(signals, InfraTidb, "infra_tidb");
    FamilyPresent(signals, InfraTikv, "infra_tikv");
    FamilyPresent(signals, InfraPd, "infra_pd");
  }

  predicate CoversFamily(selected: seq<Signal>, signals: seq<Signal>, f: Family) {
    f in Families(signals) ==> f in Families(selected)
  }

  lemma CoversEach(selected: seq<Signal>, signals: seq<Signal>)
    ensures Covers(selected, signals) <==>
            && CoversFamily(selected, signals, Apm) && CoversFamily(selected, signals, InfraPod)
            && CoversFamily(selected, signals, InfraNode) && CoversFamily(selected, signals, InfraTidb)
            && CoversFamily(selected, signals, InfraTikv) && CoversFamily(selected, signals, InfraPd)
  {
    assert REQUIRED[0] == Apm && REQUIRED[1] == InfraPod && REQUIRED[2] == InfraNode && REQUIRED[3] == InfraTidb
        && REQUIRED[4] == InfraTikv && REQUIRED[5] == InfraPd;
  }

  lemma CoversMeansNames(selected: seq<Signal>, signals: seq<Signal>)
    ensures Covers(selected, signals) <==> CoversNames(selected, signals)
  {
    CoversEach(selected, signals);
    FamiliesPresent(selected);
    FamiliesPresent(signals);
  }

  ghost predicate AlwaysCoversNames(limit: int) {
    forall signals: seq<Signal> :: CoversNames(Selection(signals, limit), signals)
  }

  /** Every kind of required source in the input is in the selection, on every input, exactly from a limit of eight on. */
  lemma CoversNamesExactly(limit: int)
    ensures AlwaysCoversNames(limit) <==> limit >= 8
  {
    CoversExactly(limit);
    forall signals: seq<Signal> ensures Covers(Selection(signals, limit), signals) <==> CoversNames(Selection(signals, limit), signals) {
      CoversMeansNames(Selection(signals, limit), signals);
    }
  }
}

/**
 * Selection of metric signals (scripts/aiops/build_telemetry_evidence.py): two diversity
 * passes, a filling pass, and a repair that brings in missing source families.
 */
module MetricSelection {
  import opened Text
  import opened Sorting
  import opened Sets

  /** The fields the selection looks at. */
  datatype Signal = Signal(score: real, entity: string, metric: string, source: string)

  type SignalKey = (string, string, string)

  function Key(s: Signal): SignalKey {
    (s.entity, s.metric, s.source)
  }

  // ---------------------------------------------------------------- ranking

  /** Higher scores first, then entity, metric and source file. */
  predicate Outranks(a: Signal, b: Signal) {
    || a.score > b.score
    || (a.score == b.score && Before(a.entity, b.entity, Before(a.metric, b.metric, StringLeq(a.source, b.source))))
  }

  predicate Before(a: string, b: string, otherwise: bool) {
    if a == b then otherwise else StringLeq(a, b)
  }

  function Ranked(signals: seq<Signal>): seq<Signal> {
    SortBy(Outranks, signals)
  }

  // ---------------------------------------------------------------- families

  datatype Family = Apm | InfraPod | InfraNode | InfraTidb | InfraTikv | InfraPd | InfraOther | Other

  function SourceFamily(source: string): Family {
    var name := Lower(source);
    if StartsWith(name, "infra_pod") then InfraPod
    else if StartsWith(name, "infra_node") then InfraNode
    else if StartsWith(name, "infra_tidb") then InfraTidb
    else if StartsWith(name, "infra_tikv") then InfraTikv
    else if StartsWith(name, "infra_pd") then InfraPd
    else if StartsWith(name, "service_") || StartsWith(name, "pod_") then Apm
    else if StartsWith(name, "infra_") then InfraOther
    else Other
  }

  function FamilyOf(s: Signal): Family {
    SourceFamily(s.source)
  }

  const REQUIRED := [Apm, InfraPod, InfraNode, InfraTidb, InfraTikv, InfraPd]

  // ---------------------------------------------------------------- the passes

  predicate HasKey(selected: seq<Signal>, key: SignalKey) {
    exists i | 0 <= i < |selected| :: Key(selected[i]) == key
  }

  /** One signal per value of the dimension, best first, up to the limit. */
  function Diversify(
      ranked: seq<Signal>, dimension: Signal -> string, limit: int, selected: seq<Signal>, values: set<string>)
    : seq<Signal>
    decreases |ranked|
  {
    if ranked == [] then selected
    else
      var s := ranked[0];
      if HasKey(selected, Key(s)) || dimension(s) in values then
        Diversify(ranked[1..], dimension, limit, selected, values)
      else if |selected| + 1 >= limit then selected + [s]
      else Diversify(ranked[1..], dimension, limit, selected + [s], values + {dimension(s)})
  }

  /** Whatever is left, best first, up to the limit. */
  function Fill(ranked: seq<Signal>, limit: int, selected: seq<Signal>): seq<Signal>
    decreases |ranked|
  {
    if ranked == [] then selected
    else
      var s := ranked[0];
      if HasKey(selected, Key(s)) then Fill(ranked[1..], limit, selected)
      else if |selected| + 1 >= limit then selected + [s]
      else Fill(ranked[1..], limit, selected + [s])
  }

  function EntityOf(s: Signal): string {
    s.entity
  }

  function MetricOf(s: Signal): string {
    s.metric
  }

  function Picked(ranked: seq<Signal>, limit: int): seq<Signal> {
    var byEntity := Diversify(ranked, EntityOf, limit, [], {});
    var byMetric := if |byEntity| >= limit then byEntity else Diversify(ranked, MetricOf, limit, byEntity, {});
    if |byMetric| < limit then Fill(ranked, limit, byMetric) else byMetric
  }

  // ---------------------------------------------------------------- the repair

  function Families(signals: seq<Signal>): (fs: seq<Family>)
    ensures |fs| == |signals|
    ensures forall i | 0 <= i < |signals| :: fs[i] == FamilyOf(signals[i])
  {
    seq(|signals|, i requires 0 <= i < |signals| => FamilyOf(signals[i]))
  }

  /** Position of the first occurrence, or the length. */
  function FirstOf(fs: seq<Family>, f: Family): (i: nat)
    ensures i <= |fs|
    ensures i < |fs| ==> fs[i] == f
    ensures i == |fs| ==> f !in fs
  {
    if fs == [] || fs[0] == f then 0 else 1 + FirstOf(fs[1..], f)
  }

  function CountOf(fs: seq<Family>, f: Family): nat {
    if fs == [] then 0 else CountOf(fs[..|fs| - 1], f) + if fs[|fs| - 1] == f then 1 else 0
  }

  /** The last position below `n` whose family occurs more than once in `fs`, or -1. */
  function LastSpare(fs: seq<Family>, n: nat): (i: int)
    requires n <= |fs|
    ensures -1 <= i < n
    ensures i >= 0 ==> CountOf(fs, fs[i]) > 1
    ensures forall j | i < j < n :: CountOf(fs, fs[j]) <= 1
  {
    if n == 0 then -1 else if CountOf(fs, fs[n - 1]) > 1 then n - 1 else LastSpare(fs, n - 1)
  }

  function ReplaceIndex(fs: seq<Family>): (i: nat)
    requires fs != []
    ensures i < |fs|
  {
    var i := LastSpare(fs, |fs|);
    if i >= 0 then i else |fs| - 1
  }

  predicate NeedsRepair(fs: seq<Family>, available: seq<Family>, f: Family) {
    fs != [] && f in available && f !in fs
  }

  function CoverFamily(selected: seq<Signal>, ranked: seq<Signal>, f: Family): (r: seq<Signal>)
    ensures |r| == |selected|
  {
    var fs, available := Families(selected), Families(ranked);
    if NeedsRepair(fs, available, f) then selected[ReplaceIndex(fs) := ranked[FirstOf(available, f)]] else selected
  }

  function Cover(selected: seq<Signal>, ranked: seq<Signal>, families: seq<Family>): (r: seq<Signal>)
    ensures |r| == |selected|
    decreases |families|
  {
    if families == [] then selected
    else Cover(CoverFamily(selected, ranked, families[0]), ranked, families[1..])
  }

  function Selection(signals: seq<Signal>, limit: int): seq<Signal> {
    if limit <= 0 then []
    else Cover(Picked(Ranked(signals), limit), Ranked(signals), REQUIRED)
  }

  // ---------------------------------------------------------------- what the passes keep

  ghost predicate KeysDistinct(s: seq<Signal>) {
    forall i, j | 0 <= i < j < |s| :: Key(s[i]) != Key(s[j])
  }

  /** Signals with distinct keys, at most `limit`, all from `ranked`. */
  ghost predicate Fair(selected: seq<Signal>, ranked: seq<Signal>, limit: int) {
    KeysDistinct(selected) && |selected| <= limit && forall i | 0 <= i < |selected| :: selected[i] in ranked
  }

  lemma FairSnoc(selected: seq<Signal>, ranked: seq<Signal>, limit: int, s: Signal)
    requires Fair(selected, ranked, limit) && |selected| < limit && s in ranked && !HasKey(selected, Key(s))
    ensures Fair(selected + [s], ranked, limit)
  {
  }

  lemma {:induction false} DiversifyFair(
      rest: seq<Signal>, ranked: seq<Signal>, dimension: Signal -> string, limit: int,
      selected: seq<Signal>, values: set<string>)
    requires Fair(selected, ranked, limit) && |selected| < limit && forall s | s in rest :: s in ranked
    ensures Fair(Diversify(rest, dimension, limit, selected, values), ranked, limit)
    ensures selected <= Diversify(rest, dimension, limit, selected, values)
    decreases |rest|
  {
    if rest != [] {
      var s := rest[0];
      if HasKey(selected, Key(s)) || dimension(s) in values {
        DiversifyFair(rest[1..], ranked, dimension, limit, selected, values);
      } else {
        FairSnoc(selected, ranked, limit, s);
        if |selected| + 1 < limit {
          DiversifyFair(rest[1..], ranked, dimension, limit, selected + [s], values + {dimension(s)});
        }
      }
    }
  }

  lemma HasKeyGrows(selected: seq<Signal>, more: seq<Signal>, key: SignalKey)
    requires HasKey(selected, key) && selected <= more
    ensures HasKey(more, key)
  {
    var i :| 0 <= i < |selected| && Key(selected[i]) == key;
    assert more[i] == selected[i];
  }

  lemma {:induction false} FillFair(rest: seq<Signal>, ranked: seq<Signal>, limit: int, selected: seq<Signal>)
    requires Fair(selected, ranked, limit) && |selected| < limit && forall s | s in rest :: s in ranked
    ensures Fair(Fill(rest, limit, selected), ranked, limit)
    ensures selected <= Fill(rest, limit, selected)
    decreases |rest|
  {
    if rest != [] {
      var s := rest[0];
      if HasKey(selected, Key(s)) {
        FillFair(rest[1..], ranked, limit, selected);
      } else {
        FairSnoc(selected, ranked, limit, s);
        if |selected| + 1 < limit {
          FillFair(rest[1..], ranked, limit, selected + [s]);
        }
      }
    }
  }

  /** Fewer than the limit selected means that everything was. */
  lemma {:induction false} FillTakesAll(rest: seq<Signal>, ranked: seq<Signal>, limit: int, selected: seq<Signal>, i: nat)
    requires Fair(selected, ranked, limit) && |selected| < limit && forall s | s in rest :: s in ranked
    requires |Fill(rest, limit, selected)| < limit && i < |rest|
    ensures HasKey(Fill(rest, limit, selected), Key(rest[i]))
    decreases |rest|
  {
    var s := rest[0];
    var next := if HasKey(selected, Key(s)) then selected else selected + [s];
    if next != selected {
      FairSnoc(selected, ranked, limit, s);
      assert Key(next[|selected|]) == Key(s);
    }
    FillFair(rest[1..], ranked, limit, next);
    if i == 0 {
      HasKeyGrows(next, Fill(rest, limit, selected), Key(s));
    } else {
      FillTakesAll(rest[1..], ranked, limit, next, i - 1);
    }
  }

  lemma PickedFair(ranked: seq<Signal>, limit: int)
    requires limit > 0
    ensures Fair(Picked(ranked, limit), ranked, limit)
  {
    DiversifyFair(ranked, ranked, EntityOf, limit, [], {});
    var byEntity := Diversify(ranked, EntityOf, limit, [], {});
    if |byEntity| < limit {
      DiversifyFair(ranked, ranked, MetricOf, limit, byEntity, {});
      var byMetric := Diversify(ranked, MetricOf, limit, byEntity, {});
      if |byMetric| < limit {
        FillFair(ranked, ranked, limit, byMetric);
      }
    }
  }

  lemma PickedTakesAll(ranked: seq<Signal>, limit: int, i: nat)
    requires limit > 0 && |Picked(ranked, limit)| < limit && i < |ranked|
    ensures HasKey(Picked(ranked, limit), Key(ranked[i]))
  {
    DiversifyFair(ranked, ranked, EntityOf, limit, [], {});
    var byEntity := Diversify(ranked, EntityOf, limit, [], {});
    DiversifyFair(ranked, ranked, MetricOf, limit, byEntity, {});
    FillTakesAll(ranked, ranked, limit, Diversify(ranked, MetricOf, limit, byEntity, {}), i);
  }

  // ---------------------------------------------------------------- what the repair keeps

  lemma InPrefix(fs: seq<Family>, n: nat, f: Family)
    requires n < |fs| && f in fs && f != fs[n] && n == |fs| - 1
    ensures f in fs[..n]
  {
    var i :| 0 <= i < |fs| && fs[i] == f;
    assert fs[..n][i] == f;
  }

  lemma {:induction false} CountMeans(fs: seq<Family>, f: Family)
    ensures CountOf(fs, f) > 0 <==> f in fs
  {
    if fs != [] {
      var n := |fs| - 1;
      CountMeans(fs[..n], f);
      if f in fs && fs[n] != f {
        InPrefix(fs, n, f);
      }
    }
  }

  /** A family that occurs twice keeps an occurrence when one is overwritten. */
  lemma {:induction false} SpareHasOther(fs: seq<Family>, i: nat) returns (j: nat)
    requires i < |fs| && CountOf(fs, fs[i]) > 1
    ensures j < |fs| && j != i && fs[j] == fs[i]
  {
    var n := |fs| - 1;
    if i == n {
      CountMeans(fs[..n], fs[i]);
      j :| 0 <= j < n && fs[..n][j] == fs[i];
    } else if fs[n] == fs[i] {
      j := n;
    } else {
      j := SpareHasOther(fs[..n], i);
    }
  }

  ghost function Present(fs: seq<Family>): set<Family> {
    set f | f in fs
  }

  lemma PresentSnoc(fs: seq<Family>)
    requires fs != []
    ensures Present(fs) == Present(fs[..|fs| - 1]) + {fs[|fs| - 1]}
  {
    var n := |fs| - 1;
    assert fs == fs[..n] + [fs[n]];
  }

  /** Without a repeated family there are as many families as signals. */
  lemma {:induction false} NoSpareAllDifferent(fs: seq<Family>)
    requires forall j | 0 <= j < |fs| :: CountOf(fs, fs[j]) <= 1
    ensures |Present(fs)| == |fs|
  {
    if fs != [] {
      var n := |fs| - 1;
      NoSpareAllDifferent(fs[..n]);
      CountMeans(fs[..n], fs[n]);
      PresentSnoc(fs);
    }
  }

  const ALL_FAMILIES := {Apm, InfraPod, InfraNode, InfraTidb, InfraTikv, InfraPd, InfraOther, Other}

  lemma SizeWithout(f: Family)
    ensures |ALL_FAMILIES - {f}| == 7
  {
    assert f in ALL_FAMILIES;
    assert |ALL_FAMILIES| == 8;
  }

  /** Eight signals with a family missing repeat some family. */
  lemma PigeonHole(fs: seq<Family>, f: Family)
    requires |fs| >= 8 && f !in fs
    ensures LastSpare(fs, |fs|) >= 0
  {
    if LastSpare(fs, |fs|) < 0 {
      NoSpareAllDifferent(fs);
      assert Present(fs) <= ALL_FAMILIES - {f};
      SizeWithout(f);
      SubsetSize(Present(fs), ALL_FAMILIES - {f});
    }
  }

  /** The repair as the families see it. */
  function Repaired(fs: seq<Family>, available: seq<Family>, f: Family): (r: seq<Family>)
    ensures |r| == |fs|
  {
    if NeedsRepair(fs, available, f) then fs[ReplaceIndex(fs) := f] else fs
  }

  function AllRepaired(fs: seq<Family>, available: seq<Family>, families: seq<Family>): (r: seq<Family>)
    ensures |r| == |fs|
    decreases |families|
  {
    if families == [] then fs else AllRepaired(Repaired(fs, available, families[0]), available, families[1..])
  }

  lemma CoverFamilyRepairs(selected: seq<Signal>, ranked: seq<Signal>, f: Family)
    ensures Families(CoverFamily(selected, ranked, f)) == Repaired(Families(selected), Families(ranked), f)
  {
  }

  lemma {:induction false} CoverRepairs(selected: seq<Signal>, ranked: seq<Signal>, families: seq<Family>)
    ensures Families(Cover(selected, ranked, families)) == AllRepaired(Families(selected), Families(ranked), families)
    decreases |families|
  {
    if families != [] {
      CoverFamilyRepairs(selected, ranked, families[0]);
      CoverRepairs(CoverFamily(selected, ranked, families[0]), ranked, families[1..]);
    }
  }

  /** With eight signals or more a repair loses no family. */
  lemma RepairKeeps(fs: seq<Family>, available: seq<Family>, f: Family, g: Family)
    requires |fs| >= 8 && g in fs
    ensures g in Repaired(fs, available, f)
  {
    if NeedsRepair(fs, available, f) {
      PigeonHole(fs, f);
      var i := ReplaceIndex(fs);
      var r := Repaired(fs, available, f);
      var k :| 0 <= k < |fs| && fs[k] == g;
      if k == i {
        var j := SpareHasOther(fs, i);
        assert r[j] == g;
      } else {
        assert r[k] == g;
      }
    }
  }

  lemma RepairBrings(fs: seq<Family>, available: seq<Family>, f: Family)
    requires fs != [] && f in available
    ensures f in Repaired(fs, available, f)
  {
    if f !in fs {
      assert Repaired(fs, available, f)[ReplaceIndex(fs)] == f;
    }
  }

  lemma {:induction false} RepairsKeep(fs: seq<Family>, available: seq<Family>, families: seq<Family>, g: Family)
    requires |fs| >= 8 && g in fs
    ensures g in AllRepaired(fs, available, families)
    decreases |families|
  {
    if families != [] {
      RepairKeeps(fs, available, families[0], g);
      RepairsKeep(Repaired(fs, available, families[0]), available, families[1..], g);
    }
  }

  lemma {:induction false} RepairsBring(fs: seq<Family>, available: seq<Family>, families: seq<Family>, i: nat)
    requires |fs| >= 8 && i < |families| && families[i] in available
    ensures families[i] in AllRepaired(fs, available, families)
    decreases |families|
  {
    var r := Repaired(fs, available, families[0]);
    if i == 0 {
      RepairBrings(fs, available, families[0]);
      RepairsKeep(r, available, families[1..], families[0]);
    } else {
      RepairsBring(r, available, families[1..], i - 1);
    }
  }

  /** Nothing happens when every family is there already. */
  lemma {:induction false} NothingToRepair(fs: seq<Family>, available: seq<Family>, families: seq<Family>)
    requires forall f | f in available :: f in fs
    ensures AllRepaired(fs, available, families) == fs
    decreases |families|
  {
    if families != [] {
      NothingToRepair(fs, available, families[1..]);
    }
  }

  /** Every required family of the input is in the result. */
  ghost predicate Covers(selected: seq<Signal>, signals: seq<Signal>) {
    forall f | f in REQUIRED && f in Families(signals) :: f in Families(selected)
  }

  lemma SameSource(a: Signal, b: Signal)
    requires Key(a) == Key(b)
    ensures FamilyOf(a) == FamilyOf(b)
  {
  }

  lemma OtherSource(a: Signal, b: Signal)
    requires FamilyOf(a) != FamilyOf(b)
    ensures Key(a) != Key(b)
  {
  }

  lemma EveryFamilyPicked(ranked: seq<Signal>, limit: int, f: Family)
    requires limit > 0 && |Picked(ranked, limit)| < limit && f in Families(ranked)
    ensures f in Families(Picked(ranked, limit))
  {
    var i :| 0 <= i < |ranked| && Families(ranked)[i] == f;
    var picked := Picked(ranked, limit);
    PickedTakesAll(ranked, limit, i);
    var j :| 0 <= j < |picked| && Key(picked[j]) == Key(ranked[i]);
    SameSource(picked[j], ranked[i]);
    assert Families(picked)[j] == f;
  }

  lemma RankedFamilies(signals: seq<Signal>, f: Family)
    ensures f in Families(Ranked(signals)) <==> f in Families(signals)
  {
    SortByPermutes(Outranks, signals);
    if f in Families(signals) {
      SamePermuted(signals, Ranked(signals), f);
    }
    if f in Families(Ranked(signals)) {
      SamePermuted(Ranked(signals), signals, f);
    }
  }

  lemma SamePermuted(a: seq<Signal>, b: seq<Signal>, f: Family)
    requires multiset(a) == multiset(b) && f in Families(a)
    ensures f in Families(b)
  {
    var i :| 0 <= i < |a| && Families(a)[i] == f;
    assert a[i] in multiset(b);
    var j :| 0 <= j < |b| && b[j] == a[i];
    assert Families(b)[j] == f;
  }

  /** From a limit of eight on, every required family the input has is in the result. */
  lemma EightSuffice(signals: seq<Signal>, limit: int)
    requires limit >= 8
    ensures Covers(Selection(signals, limit), signals)
  {
    var ranked := Ranked(signals);
    var picked := Picked(ranked, limit);
    var fs, available := Families(picked), Families(ranked);
    CoverRepairs(picked, ranked, REQUIRED);
    PickedFair(ranked, limit);
    forall f | f in REQUIRED && f in Families(signals) ensures f in AllRepaired(fs, available, REQUIRED) {
      RankedFamilies(signals, f);
      if |picked| < limit {
        forall g | g in available ensures g in fs {
          EveryFamilyPicked(ranked, limit, g);
        }
        NothingToRepair(fs, available, REQUIRED);
      } else {
        var i :| 0 <= i < |REQUIRED| && REQUIRED[i] == f;
        RepairsBring(fs, available, REQUIRED, i);
      }
    }
  }

  // ---------------------------------------------------------------- keys, length and origin

  lemma CoverFamilyFair(selected: seq<Signal>, ranked: seq<Signal>, limit: int, f: Family)
    requires Fair(selected, ranked, limit)
    ensures Fair(CoverFamily(selected, ranked, f), ranked, limit)
  {
    var fs := Families(selected);
    if NeedsRepair(fs, Families(ranked), f) {
      var c := ranked[FirstOf(Families(ranked), f)];
      forall i | 0 <= i < |selected| ensures Key(selected[i]) != Key(c) {
        assert fs[i] != f;
        OtherSource(selected[i], c);
      }
    }
  }

  lemma {:induction false} CoverFair(selected: seq<Signal>, ranked: seq<Signal>, limit: int, families: seq<Family>)
    requires Fair(selected, ranked, limit)
    ensures Fair(Cover(selected, ranked, families), ranked, limit)
    decreases |families|
  {
    if families != [] {
      CoverFamilyFair(selected, ranked, limit, families[0]);
      CoverFair(CoverFamily(selected, ranked, families[0]), ranked, limit, families[1..]);
    }
  }

  /**
   * The selection has distinct keys, comes from the input, keeps to the limit, and falls
   * short of it only when every key of the input is in it.
   */
  lemma SelectionIsFair(signals: seq<Signal>, limit: int)
    requires limit > 0
    ensures Fair(Selection(signals, limit), signals, limit)
    ensures |Selection(signals, limit)| == |Picked(Ranked(signals), limit)|
    ensures |Selection(signals, limit)| < limit ==>
              forall i | 0 <= i < |signals| :: HasKey(Selection(signals, limit), Key(signals[i]))
  {
    var ranked := Ranked(signals);
    var picked := Picked(ranked, limit);
    PickedFair(ranked, limit);
    CoverFair(picked, ranked, limit, REQUIRED);
    SortByPermutes(Outranks, signals);
    var selection := Selection(signals, limit);
    forall i | 0 <= i < |selection| ensures selection[i] in signals {
      InPermutation(ranked, signals, selection[i]);
    }
    if |selection| < limit {
      ShortIsUntouched(ranked, limit);
      forall i | 0 <= i < |signals| ensures HasKey(selection, Key(signals[i])) {
        InPermutation(signals, ranked, signals[i]);
        var j :| 0 <= j < |ranked| && ranked[j] == signals[i];
        PickedTakesAll(ranked, limit, j);
      }
    }
  }

  lemma {:induction false} CoverIdle(selected: seq<Signal>, ranked: seq<Signal>, families: seq<Family>)
    requires forall f | f in Families(ranked) :: f in Families(selected)
    ensures Cover(selected, ranked, families) == selected
    decreases |families|
  {
    if families != [] {
      CoverIdle(selected, ranked, families[1..]);
    }
  }

  lemma ShortIsUntouched(ranked: seq<Signal>, limit: int)
    requires limit > 0 && |Picked(ranked, limit)| < limit
    ensures Cover(Picked(ranked, limit), ranked, REQUIRED) == Picked(ranked, limit)
  {
    forall f | f in Families(ranked) ensures f in Families(Picked(ranked, limit)) {
      EveryFamilyPicked(ranked, limit, f);
    }
    CoverIdle(Picked(ranked, limit), ranked, REQUIRED);
  }

  // ---------------------------------------------------------------- diversity before the repair

  ghost predicate EntitiesDistinct(s: seq<Signal>) {
    forall i, j | 0 <= i < j < |s| :: s[i].entity != s[j].entity
  }

  ghost predicate HasEntity(s: seq<Signal>, entity: string) {
    exists i | 0 <= i < |s| :: s[i].entity == entity
  }

  ghost predicate EntityValues(selected: seq<Signal>, values: set<string>) {
    forall e: string :: e in values <==> HasEntity(selected, e)
  }

  lemma EntityValuesSnoc(selected: seq<Signal>, values: set<string>, s: Signal)
    requires EntityValues(selected, values)
    ensures EntityValues(selected + [s], values + {s.entity})
  {
    var longer := selected + [s];
    forall e: string ensures e in values + {s.entity} <==> HasEntity(longer, e) {
      if HasEntity(selected, e) {
        var i :| 0 <= i < |selected| && selected[i].entity == e;
        assert longer[i].entity == e;
      }
      if e == s.entity {
        assert longer[|selected|].entity == e;
      }
      if HasEntity(longer, e) && e != s.entity {
        var i :| 0 <= i < |longer| && longer[i].entity == e;
        assert selected[i].entity == e;
      }
    }
  }

  /** The first pass takes the best signal of each entity: entities stay distinct, and short of the limit none is missed. */
  lemma {:induction false} FirstPassDiverse(rest: seq<Signal>, limit: int, selected: seq<Signal>, values: set<string>)
    requires EntitiesDistinct(selected) && EntityValues(selected, values) && |selected| < limit
    ensures var r := Diversify(rest, EntityOf, limit, selected, values);
            && EntitiesDistinct(r) && selected <= r
            && (|r| < limit ==> forall i | 0 <= i < |rest| :: HasEntity(r, rest[i].entity))
    decreases |rest|
  {
    if rest != [] {
      var s := rest[0];
      var r := Diversify(rest, EntityOf, limit, selected, values);
      if HasKey(selected, Key(s)) || s.entity in values {
        if HasKey(selected, Key(s)) {
          var i :| 0 <= i < |selected| && Key(selected[i]) == Key(s);
          assert selected[i].entity == s.entity;
        }
        assert HasEntity(selected, s.entity);
        FirstPassDiverse(rest[1..], limit, selected, values);
      } else {
        var longer := selected + [s];
        EntityValuesSnoc(selected, values, s);
        assert longer[|selected|].entity == s.entity;
        if |longer| < limit {
          FirstPassDiverse(rest[1..], limit, longer, values + {s.entity});
        }
      }
      if |r| < limit {
        forall i | 0 <= i < |rest| ensures HasEntity(r, rest[i].entity) {
          if i == 0 {
            assert HasEntity(r, s.entity);
          } else {
            assert rest[i] == rest[1..][i - 1];
          }
        }
      }
    }
  }

  lemma OutranksOrder()
    ensures Ordering(Outranks)
  {
    StringOrder();
  }

  /** Each signal of the first pass comes before every other signal of its entity. */
  lemma {:induction false} FirstPassFirst(
      ranked: seq<Signal>, n: nat, limit: int, selected: seq<Signal>, values: set<string>, k: nat) returns (i: nat)
    requires n <= |ranked| && |selected| < limit && EntityValues(selected, values)
    requires forall j | 0 <= j < n :: ranked[j].entity in values
    requires |selected| <= k < |Diversify(ranked[n..], EntityOf, limit, selected, values)|
    ensures i < |ranked| && Diversify(ranked[n..], EntityOf, limit, selected, values)[k] == ranked[i]
    ensures forall j | 0 <= j < i :: ranked[j].entity != ranked[i].entity
    decreases |ranked| - n
  {
    var s := ranked[n];
    assert ranked[n..][1..] == ranked[n + 1..];
    if HasKey(selected, Key(s)) || s.entity in values {
      if HasKey(selected, Key(s)) {
        var m :| 0 <= m < |selected| && Key(selected[m]) == Key(s);
        assert selected[m].entity == s.entity;
        assert HasEntity(selected, s.entity);
      }
      i := FirstPassFirst(ranked, n + 1, limit, selected, values, k);
    } else if k == |selected| {
      i := n;
      if |selected| + 1 < limit {
        KeepsPrefix(ranked[n + 1..], limit, selected + [s], values + {s.entity});
      }
    } else {
      EntityValuesSnoc(selected, values, s);
      i := FirstPassFirst(ranked, n + 1, limit, selected + [s], values + {s.entity}, k);
    }
  }

  lemma {:induction false} KeepsPrefix(rest: seq<Signal>, limit: int, selected: seq<Signal>, values: set<string>)
    ensures selected <= Diversify(rest, EntityOf, limit, selected, values)
    decreases |rest|
  {
    if rest != [] {
      var s := rest[0];
      KeepsPrefix(rest[1..], limit, selected, values);
      KeepsPrefix(rest[1..], limit, selected + [s], values + {s.entity});
    }
  }

  function ByEntity(signals: seq<Signal>, limit: int): seq<Signal> {
    Diversify(Ranked(signals), EntityOf, limit, [], {})
  }

  /**
   * The selection before the repair starts with the strongest signal of each entity, for as
   * many entities as the limit allows.
   */
  lemma BestOfEachEntityFirst(signals: seq<Signal>, limit: int)
    requires limit > 0
    ensures ByEntity(signals, limit) <= Picked(Ranked(signals), limit)
    ensures EntitiesDistinct(ByEntity(signals, limit))
    ensures |ByEntity(signals, limit)| < limit ==>
              forall i | 0 <= i < |signals| :: HasEntity(ByEntity(signals, limit), signals[i].entity)
    ensures forall k, s | 0 <= k < |ByEntity(signals, limit)| && s in signals ::
              s.entity == ByEntity(signals, limit)[k].entity ==> Outranks(ByEntity(signals, limit)[k], s)
  {
    var ranked, first := Ranked(signals), ByEntity(signals, limit);
    SortByPermutes(Outranks, signals);
    FirstPassDiverse(ranked, limit, [], {});
    DiversifyFair(ranked, ranked, EntityOf, limit, [], {});
    if |first| < limit {
      DiversifyFair(ranked, ranked, MetricOf, limit, first, {});
      var second := Diversify(ranked, MetricOf, limit, first, {});
      if |second| < limit {
        FillFair(ranked, ranked, limit, second);
      }
      forall i | 0 <= i < |signals| ensures HasEntity(first, signals[i].entity) {
        InPermutation(signals, ranked, signals[i]);
        var j :| 0 <= j < |ranked| && ranked[j] == signals[i];
        assert HasEntity(first, ranked[j].entity);
      }
    }
    forall k, s | 0 <= k < |first| && s in signals && s.entity == first[k].entity ensures Outranks(first[k], s) {
      assert ranked[0..] == ranked;
      var i := FirstPassFirst(ranked, 0, limit, [], {}, k);
      InPermutation(signals, ranked, s);
      StrongerFirst(signals, i, s);
    }
  }

  lemma StrongerFirst(signals: seq<Signal>, i: nat, s: Signal)
    requires i < |Ranked(signals)| && s in Ranked(signals) && s.entity == Ranked(signals)[i].entity
    requires forall j | 0 <= j < i :: Ranked(signals)[j].entity != Ranked(signals)[i].entity
    ensures Outranks(Ranked(signals)[i], s)
  {
    var ranked := Ranked(signals);
    var j :| 0 <= j < |ranked| && ranked[j] == s;
    OutranksOrder();
    SortBySorted(Outranks, signals);
    if i < j {
      assert Outranks(ranked[i], ranked[j]);
    } else {
      assert i == j;
    }
  }

  /** The selection does not depend on the order of the input. */
  lemma SelectionIgnoresOrder(a: seq<Signal>, b: seq<Signal>, limit: int)
    requires multiset(a) == multiset(b)
    ensures Selection(a, limit) == Selection(b, limit)
  {
    OutranksOrder();
    OutranksAntisymmetric();
    SortIgnoresOrder(Outranks, a, b);
  }

  lemma OutranksAntisymmetric()
    ensures Antisymmetric(Outranks)
  {
    StringOrder();
  }

  // ---------------------------------------------------------------- the second pass

  ghost predicate MetricsDistinct(s: seq<Signal>, from: nat) {
    forall i, j | from <= i < j < |s| :: s[i].metric != s[j].metric
  }

  ghost predicate HasMetric(s: seq<Signal>, from: nat, metric: string) {
    exists i | from <= i < |s| :: s[i].metric == metric
  }

  ghost predicate MetricValues(selected: seq<Signal>, from: nat, values: set<string>) {
    forall m: string :: m in values <==> HasMetric(selected, from, m)
  }

  lemma MetricValuesSnoc(selected: seq<Signal>, from: nat, values: set<string>, s: Signal)
    requires MetricValues(selected, from, values) && from <= |selected|
    ensures MetricValues(selected + [s], from, values + {s.metric})
  {
    var longer := selected + [s];
    forall m: string ensures m in values + {s.metric} <==> HasMetric(longer, from, m) {
      if HasMetric(selected, from, m) {
        var i :| from <= i < |selected| && selected[i].metric == m;
        assert longer[i].metric == m;
      }
      if m == s.metric {
        assert longer[|selected|].metric == m;
      }
      if HasMetric(longer, from, m) && m != s.metric {
        var i :| from <= i < |longer| && longer[i].metric == m;
        assert selected[i].metric == m;
      }
    }
  }

  /**
   * The second pass adds at most one signal per metric, and short of the limit every signal
   * is selected or has its metric added.
   */
  lemma {:induction false} SecondPassDiverse(
      rest: seq<Signal>, limit: int, selected: seq<Signal>, from: nat, values: set<string>)
    requires from <= |selected| < limit && MetricsDistinct(selected, from) && MetricValues(selected, from, values)
    ensures var r := Diversify(rest, MetricOf, limit, selected, values);
            && selected <= r && MetricsDistinct(r, from)
            && (|r| < limit ==> forall i | 0 <= i < |rest| ::
                  HasKey(r, Key(rest[i])) || HasMetric(r, from, rest[i].metric))
    decreases |rest|
  {
    if rest != [] {
      var s := rest[0];
      var r := Diversify(rest, MetricOf, limit, selected, values);
      if HasKey(selected, Key(s)) || s.metric in values {
        SecondPassDiverse(rest[1..], limit, selected, from, values);
        SeenStays(selected, r, from, s);
      } else {
        var longer := selected + [s];
        MetricValuesSnoc(selected, from, values, s);
        assert Key(longer[|selected|]) == Key(s);
        if |longer| < limit {
          SecondPassDiverse(rest[1..], limit, longer, from, values + {s.metric});
          SeenStays(longer, r, from, s);
        }
      }
      if |r| < limit {
        forall i | 0 <= i < |rest| ensures HasKey(r, Key(rest[i])) || HasMetric(r, from, rest[i].metric) {
          if i > 0 {
            assert rest[i] == rest[1..][i - 1];
          }
        }
      }
    }
  }

  lemma SeenStays(selected: seq<Signal>, more: seq<Signal>, from: nat, s: Signal)
    requires selected <= more && (HasKey(selected, Key(s)) || HasMetric(selected, from, s.metric))
    ensures HasKey(more, Key(s)) || HasMetric(more, from, s.metric)
  {
    if HasKey(selected, Key(s)) {
      HasKeyGrows(selected, more, Key(s));
    } else {
      var i :| from <= i < |selected| && selected[i].metric == s.metric;
      assert more[i] == selected[i];
    }
  }
}

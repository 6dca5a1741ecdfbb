/**
 * What a definition holds, section by section: the metrics that are validated and
 * recorded, those that a minimum version rules out, and those that a merge keeps
 * (internal/collectiondefinition).
 */
module DefinitionContents {
  import opened Common
  import opened Metrics
  import opened Validation
  import FailureCount
  import opened DefinitionMerge
  import opened MergeValidity
  import Text
  import opened Versions
  import opened VersionStrings

  // ----- keys ---------------------------------------------------------------

  /** Types without a colon: metrics have one key exactly if they have the same type and label. */
  lemma KeyExactly(a: Metric, b: Metric)
    requires ':' !in a.info.metricType && ':' !in b.info.metricType
    ensures Key(a) == Key(b) <==> a.info.metricType == b.info.metricType && a.info.metricLabel == b.info.metricLabel
  {
    var x, y := a.info.metricType, b.info.metricType;
    if Key(a) == Key(b) {
      assert Key(a)[|x|] == ':' && Key(b)[|y|] == ':';
      assert forall i :: 0 <= i < |x| ==> Key(a)[i] == x[i];
      assert forall i :: 0 <= i < |y| ==> Key(b)[i] == y[i];
      assert |x| == |y|;
      assert Key(a)[..|x|] == x && Key(b)[..|y|] == y;
      assert Key(a)[|x| + 1..] == a.info.metricLabel && Key(b)[|y| + 1..] == b.info.metricLabel;
    }
  }

  /** Only OS command metrics may be for one vendor. */
  lemma VendorExactly(m: Metric)
    ensures OsVendor(m) != AllVendors ==> m.OsCommandMetric? && m.vendor == Some(OsVendor(m))
    ensures m.OsCommandMetric? && m.vendor.Some? ==> OsVendor(m) == m.vendor.value
  {
  }

  // ----- the metrics of a definition ----------------------------------------

  ghost predicate InVolumes(vs: seq<Volume>, m: Metric) {
    exists v :: v in vs && m in v.metrics
  }

  lemma {:induction false} VolumesExactly(vs: seq<Volume>, m: Metric)
    ensures m in VolumeMetrics(vs) <==> InVolumes(vs, m)
  {
    if vs != [] {
      VolumesExactly(vs[..|vs| - 1], m);
      assert vs == vs[..|vs| - 1] + [vs[|vs| - 1]];
    }
  }

  /** The metrics of every list but the indexserver.ini metrics are validated. */
  lemma VisitedExactly(w: Workload, m: Metric)
    ensures m in VisitedMetrics(w) <==>
      || (w.system.Some? && (m in w.system.value.systemMetrics || m in w.system.value.osCommandMetrics))
      || (w.corosync.Some? && (m in w.corosync.value.configMetrics || m in w.corosync.value.osCommandMetrics))
      || (w.hana.Some? && var h := w.hana.value;
            m in h.globalIniMetrics || InVolumes(h.diskVolumes, m) || m in h.backupMetrics || m in h.haMetrics
            || m in h.drMetrics || m in h.traceMetrics || m in h.osCommandMetrics)
      || (w.netweaver.Some? && m in w.netweaver.value.osCommandMetrics)
      || (w.pacemaker.Some? && (InConfig(w.pacemaker.value.config, m)
            || m in w.pacemaker.value.cibBootstrapMetrics || m in w.pacemaker.value.osCommandMetrics))
      || (w.custom.Some? && m in w.custom.value.osCommandMetrics)
  {
    VolumesExactly(HanaOf(w).diskVolumes, m);
  }

  ghost predicate InConfig(c: Option<PacemakerConfig>, m: Metric) {
    c.Some? && var x := c.value;
      m in x.primitiveMetrics || m in x.rscLocationMetrics || m in x.rscOptionMetrics || m in x.hanaOperationMetrics
      || m in x.fenceAgentMetrics || m in x.ascsMetrics || m in x.opOptionMetrics
  }

  /** Before a merge, the metrics that are validated and the indexserver.ini metrics are recorded. */
  lemma MappedExactly(w: Workload, m: Metric)
    ensures m in MappedMetrics(w) <==> m in VisitedMetrics(w) || (w.hana.Some? && m in w.hana.value.indexserverIniMetrics)
  {
  }

  /** Each list is validated once. */
  lemma VisitedOnce(w: Workload)
    ensures multiset(VisitedMetrics(w))
         == multiset(SystemOf(w).systemMetrics) + multiset(SystemOf(w).osCommandMetrics)
            + multiset(CorosyncOf(w).configMetrics) + multiset(CorosyncOf(w).osCommandMetrics)
            + multiset(HanaOf(w).globalIniMetrics) + multiset(VolumeMetrics(HanaOf(w).diskVolumes))
            + multiset(HanaOf(w).backupMetrics) + multiset(HanaOf(w).haMetrics) + multiset(HanaOf(w).drMetrics)
            + multiset(HanaOf(w).traceMetrics) + multiset(HanaOf(w).osCommandMetrics)
            + multiset(NetweaverOf(w).osCommandMetrics)
            + multiset(ConfigOf(w).primitiveMetrics) + multiset(ConfigOf(w).rscLocationMetrics)
            + multiset(ConfigOf(w).rscOptionMetrics) + multiset(ConfigOf(w).hanaOperationMetrics)
            + multiset(ConfigOf(w).fenceAgentMetrics) + multiset(ConfigOf(w).ascsMetrics) + multiset(ConfigOf(w).opOptionMetrics)
            + multiset(PacemakerOf(w).cibBootstrapMetrics) + multiset(PacemakerOf(w).osCommandMetrics)
            + multiset(CustomOf(w).osCommandMetrics)
  {
    HanaOnce(w);
    ConfigOnce(ConfigOf(w));
  }

  lemma HanaOnce(w: Workload)
    ensures multiset(HanaMetrics(w))
         == multiset(HanaOf(w).globalIniMetrics) + multiset(VolumeMetrics(HanaOf(w).diskVolumes))
            + multiset(HanaOf(w).backupMetrics) + multiset(HanaOf(w).haMetrics) + multiset(HanaOf(w).drMetrics)
            + multiset(HanaOf(w).traceMetrics) + multiset(HanaOf(w).osCommandMetrics)
  {
  }

  lemma ConfigOnce(c: PacemakerConfig)
    ensures multiset(ConfigMetrics(c))
         == multiset(c.primitiveMetrics) + multiset(c.rscLocationMetrics) + multiset(c.rscOptionMetrics)
            + multiset(c.hanaOperationMetrics) + multiset(c.fenceAgentMetrics) + multiset(c.ascsMetrics) + multiset(c.opOptionMetrics)
  {
  }

  // ----- minimum versions ---------------------------------------------------

  /** A version string is above one with the numbers of `q`. */
  ghost predicate Above(p: seq<string>, q: seq<string>)
    requires (forall x :: x in p + q ==> forall c :: c in x ==> '0' <= c <= '9')
  {
    assert forall x :: x in p || x in q ==> x in p + q;
    || Number(p, 0) > Number(q, 0)
    || (Number(p, 0) == Number(q, 0)
        && (Number(p, 1) > Number(q, 1) || (Number(p, 1) == Number(q, 1) && Number(p, 2) > Number(q, 2))))
  }

  /**
   * The minimum version of a metric adds one failure exactly when it is neither
   * empty nor two or three runs of digits that are not above those of the agent's version.
   */
  lemma MinVersionExactly(c: Checks, m: Metric, q: seq<string>)
    requires IsDotted(c.agentVersion, q)
    ensures var v := m.info.minVersion;
      c.Failures([m]) == c.OwnFailures(m) +
        if v == "" || exists p :: IsDotted(v, p) && !Above(p, q) then 0 else 1
  {
    var v := m.info.minVersion;
    c.SeenStep([], m);
    assert [] + [m] == [m];
    IsVersionExactly(v);
    if p :| IsDotted(v, p) {
      forall r | IsDotted(v, r) ensures r == p {
        SplitDotted(v, p);
        SplitDotted(v, r);
      }
      EarlierExactly(c.agentVersion, q, v, p);
    }
  }

  /** The same for versions written in decimal notation. */
  lemma WrittenMinVersion(c: Checks, m: Metric, a: seq<nat>, b: seq<nat>)
    requires |a| in {2, 3} && forall i :: 0 <= i < |a| ==> a[i] <= 0x7fff_ffff_ffff_ffff
    requires |b| in {2, 3} && forall i :: 0 <= i < |b| ==> b[i] <= 0x7fff_ffff_ffff_ffff
    requires m.info.minVersion == Written(a) && c.agentVersion == Written(b)
    ensures var a2, b2 := if |a| == 3 then a[2] else 0, if |b| == 3 then b[2] else 0;
      c.Failures([m]) == c.OwnFailures(m) +
        if a[0] > b[0] || (a[0] == b[0] && (a[1] > b[1] || (a[1] == b[1] && a2 > b2))) then 1 else 0
  {
    c.SeenStep([], m);
    assert [] + [m] == [m];
    var p := WrittenIsDotted(a);
    IsVersionExactly(Written(a));
    WrittenEarlier(b, a);
  }

  /**
   * A metric adds its own failures and one if its minimum version is not met, and
   * one more if an earlier metric with type and label has its key and a vendor that overlaps with its own.
   */
  lemma FailuresOfOneMore(c: Checks, ms: seq<Metric>, m: Metric)
    ensures c.Failures(ms + [m]) == c.Failures(ms) + c.Failures([m]) +
      if m.info.metricType != "" && m.info.metricLabel != ""
         && exists x :: x in ms && x.info.metricType != "" && x.info.metricLabel != "" && !Compatible(x, m) then 1 else 0
  {
    c.SeenStep(ms, m);
    c.SeenStep([], m);
    assert [] + [m] == [m];
    FailureCount.KeyedOfExactly(c, ms);
    ClashesExactly(m, c.KeyedOf(ms));
    if c.Keyed(m) {
      assert Clashes(m, c.Seen(ms)) <==> exists x :: x in ms && c.Keyed(x) && !Compatible(x, m);
    }
  }

  /** What it takes for a metric to cause no failure by itself. */
  lemma WellFormedExactly(c: Checks, m: Metric, q: seq<string>)
    requires IsDotted(c.agentVersion, q)
    ensures c.WellFormed(m) <==>
      && (m.info.minVersion == "" || exists p :: IsDotted(m.info.minVersion, p) && !Above(p, q))
      && m.info.metricType != "" && m.info.metricLabel != ""
      && (m.VariableMetric? ==> m.specified)
      && (m.OsCommandMetric? ==> m.command != "")
      && (!m.VariableMetric? ==> c.SoundRules(m.rules))
  {
    MinVersionExactly(c, m, q);
    c.SeenStep([], m);
    assert [] + [m] == [m];
    c.OwnFailuresExactly(m);
  }

  // ----- merged definitions -------------------------------------------------

  /** Whether the agent, at version 3.16, is new enough for a metric. */
  ghost predicate NewEnoughFor(m: Metric) {
    m.info.minVersion == "" || exists p :: IsDotted(m.info.minVersion, p) && UpTo316(p)
  }

  ghost predicate UpTo316(p: seq<string>)
    requires forall x :: x in p ==> forall c :: c in x ==> '0' <= c <= '9'
  {
    Number(p, 0) < 3 || (Number(p, 0) == 3 && (Number(p, 1) < 16 || (Number(p, 1) == 16 && Number(p, 2) == 0)))
  }

  lemma AgentVersionIs()
    ensures IsDotted(AGENT_VERSION, ["3", "16"])
    ensures Number(["3", "16"], 0) == 3 && Number(["3", "16"], 1) == 16 && Number(["3", "16"], 2) == 0
  {
    PlaceValue("", '3');
    PlaceValue("", '1');
    PlaceValue("1", '6');
    assert "" + ['3'] == "3" && "" + ['1'] == "1" && "1" + ['6'] == "16";
  }

  lemma NumberIsNotNegative(p: seq<string>, i: nat)
    requires forall x :: x in p ==> forall c :: c in x ==> '0' <= c <= '9'
    ensures Number(p, i) >= 0
  {
    if i < |p| {
      assert p[i] in p;
      Text.DigitsNotNegative(p[i]);
    }
  }

  lemma AdmissibleExactly(m: Metric)
    ensures Admissible(m) <==> NewEnoughFor(m)
  {
    var v := m.info.minVersion;
    AgentVersionIs();
    IsVersionExactly(v);
    forall p | IsDotted(v, p) ensures Earlier(AGENT_VERSION, v) <==> !UpTo316(p) {
      EarlierExactly(AGENT_VERSION, ["3", "16"], v, p);
      NumberIsNotNegative(p, 2);
    }
  }

  /** A filtered list holds the metrics that the agent is new enough for, in order. */
  lemma KeptInOrder(a: seq<Metric>, m: Metric)
    ensures AdmissibleOnes(a + [m]) == AdmissibleOnes(a) + if NewEnoughFor(m) then [m] else []
    ensures AdmissibleOnes([]) == []
  {
    AdmissibleExactly(m);
    assert (a + [m])[..|a|] == a;
  }

  lemma KeptExactly(ms: seq<Metric>, m: Metric)
    ensures m in AdmissibleOnes(ms) <==> m in ms && NewEnoughFor(m)
  {
    AdmissibleOnesExactly(ms);
    AdmissibleExactly(m);
  }

  /** A metric that no metric of the primary definition clashes with. */
  ghost predicate NewTo(p: Workload, m: Metric) {
    forall x :: x in MappedMetrics(p) ==> Compatible(x, m)
  }

  /** A merged list keeps what the agent is new enough for, of the primary list and of the new ones of the secondary list. */
  lemma MembersOfMergedList(primary: seq<Metric>, secondary: seq<Metric>, p: Workload, m: Metric)
    ensures m in MergedList(primary, secondary, Existing(p)) <==>
      NewEnoughFor(m) && (m in primary || (m in secondary && NewTo(p, m)))
  {
    MergedListExactly(primary, secondary, MappedMetrics(p));
    KeptExactly(primary, m);
    AdmissibleExactly(m);
  }

  lemma {:induction false} VolumesOfMerge(vs: seq<Volume>, m: Metric)
    ensures InVolumes(AdmissibleVolumes(vs), m) <==> InVolumes(vs, m) && NewEnoughFor(m)
  {
    var out := AdmissibleVolumes(vs);
    forall i | 0 <= i < |vs| ensures m in out[i].metrics <==> m in vs[i].metrics && NewEnoughFor(m) {
      KeptExactly(vs[i].metrics, m);
    }
    if v :| v in vs && m in v.metrics && NewEnoughFor(m) {
      var i :| 0 <= i < |vs| && vs[i] == v;
      assert out[i] in out;
    }
    if v :| v in out && m in v.metrics {
      var i :| 0 <= i < |out| && out[i] == v;
      assert vs[i] in vs;
    }
  }

  /** Which metrics the lists of a merged definition hold: the system, Corosync, Netweaver and custom sections, */
  lemma MembersOfMerge(p: Workload, s: Workload, w: Workload, m: Metric)
    requires IsMerge(p, s, w)
    ensures w.system.Some? <==> p.system.Some?
    ensures w.corosync.Some? <==> p.corosync.Some?
    ensures w.netweaver.Some? <==> p.netweaver.Some?
    ensures w.custom.Some? <==> p.custom.Some?
    ensures w.system.Some? ==> var x, y := w.system.value, p.system.value;
      && (m in x.systemMetrics <==> m in y.systemMetrics && NewEnoughFor(m))
      && (m in x.osCommandMetrics <==>
            NewEnoughFor(m) && (m in y.osCommandMetrics || (m in SystemOf(s).osCommandMetrics && NewTo(p, m))))
    ensures w.corosync.Some? ==> var x, y := w.corosync.value, p.corosync.value;
      && (m in x.configMetrics <==>
            NewEnoughFor(m) && (m in y.configMetrics || (m in CorosyncOf(s).configMetrics && NewTo(p, m))))
      && (m in x.osCommandMetrics <==>
            NewEnoughFor(m) && (m in y.osCommandMetrics || (m in CorosyncOf(s).osCommandMetrics && NewTo(p, m))))
    ensures w.netweaver.Some? ==>
      (m in w.netweaver.value.osCommandMetrics <==>
         NewEnoughFor(m) && (m in p.netweaver.value.osCommandMetrics || (m in NetweaverOf(s).osCommandMetrics && NewTo(p, m))))
    ensures w.custom.Some? ==>
      (m in w.custom.value.osCommandMetrics <==>
         NewEnoughFor(m) && (m in p.custom.value.osCommandMetrics || (m in CustomOf(s).osCommandMetrics && NewTo(p, m))))
  {
    if p.system.Some? {
      KeptExactly(p.system.value.systemMetrics, m);
      MembersOfMergedList(p.system.value.osCommandMetrics, SystemOf(s).osCommandMetrics, p, m);
    }
    if p.corosync.Some? {
      MembersOfMergedList(p.corosync.value.configMetrics, CorosyncOf(s).configMetrics, p, m);
      MembersOfMergedList(p.corosync.value.osCommandMetrics, CorosyncOf(s).osCommandMetrics, p, m);
    }
    if p.netweaver.Some? {
      MembersOfMergedList(p.netweaver.value.osCommandMetrics, NetweaverOf(s).osCommandMetrics, p, m);
    }
    if p.custom.Some? {
      MembersOfMergedList(p.custom.value.osCommandMetrics, CustomOf(s).osCommandMetrics, p, m);
    }
  }

  /** the HANA section */
  lemma MembersOfMergedHana(p: Workload, s: Workload, w: Workload, m: Metric)
    requires IsMerge(p, s, w)
    ensures w.hana.Some? <==> p.hana.Some?
    ensures w.hana.Some? ==> var x, y := w.hana.value, p.hana.value;
      && (m in x.globalIniMetrics <==>
            NewEnoughFor(m) && (m in y.globalIniMetrics || (m in HanaOf(s).globalIniMetrics && NewTo(p, m))))
      && (m in x.indexserverIniMetrics <==>
            NewEnoughFor(m) && (m in y.indexserverIniMetrics || (m in HanaOf(s).indexserverIniMetrics && NewTo(p, m))))
      && (m in x.osCommandMetrics <==>
            NewEnoughFor(m) && (m in y.osCommandMetrics || (m in HanaOf(s).osCommandMetrics && NewTo(p, m))))
      && (InVolumes(x.diskVolumes, m) <==> InVolumes(y.diskVolumes, m) && NewEnoughFor(m))
      && (m in x.backupMetrics <==> m in y.backupMetrics && NewEnoughFor(m))
      && (m in x.haMetrics <==> m in y.haMetrics && NewEnoughFor(m))
      && (m in x.drMetrics <==> m in y.drMetrics && NewEnoughFor(m))
      && (m in x.traceMetrics <==> m in y.traceMetrics && NewEnoughFor(m))
  {
    if p.hana.Some? {
      var y := p.hana.value;
      MembersOfMergedList(y.globalIniMetrics, HanaOf(s).globalIniMetrics, p, m);
      MembersOfMergedList(y.indexserverIniMetrics, HanaOf(s).indexserverIniMetrics, p, m);
      MembersOfMergedList(y.osCommandMetrics, HanaOf(s).osCommandMetrics, p, m);
      VolumesOfMerge(y.diskVolumes, m);
      KeptExactly(y.backupMetrics, m);
      KeptExactly(y.haMetrics, m);
      KeptExactly(y.drMetrics, m);
      KeptExactly(y.traceMetrics, m);
    }
  }

  /** and the Pacemaker section. */
  lemma MembersOfMergedPacemaker(p: Workload, s: Workload, w: Workload, m: Metric)
    requires IsMerge(p, s, w)
    ensures w.pacemaker.Some? <==> p.pacemaker.Some?
    ensures w.pacemaker.Some? ==> var x, y := w.pacemaker.value, p.pacemaker.value;
      && (m in x.cibBootstrapMetrics <==> m in y.cibBootstrapMetrics && NewEnoughFor(m))
      && (m in x.osCommandMetrics <==>
            NewEnoughFor(m) && (m in y.osCommandMetrics || (m in PacemakerOf(s).osCommandMetrics && NewTo(p, m))))
      && (x.config.Some? <==> y.config.Some?)
      && (x.config.Some? ==> var c, d := x.config.value, y.config.value;
            && (m in c.primitiveMetrics <==> m in d.primitiveMetrics && NewEnoughFor(m))
            && (m in c.rscLocationMetrics <==> m in d.rscLocationMetrics && NewEnoughFor(m))
            && (m in c.rscOptionMetrics <==> m in d.rscOptionMetrics && NewEnoughFor(m))
            && (m in c.hanaOperationMetrics <==> m in d.hanaOperationMetrics && NewEnoughFor(m))
            && (m in c.fenceAgentMetrics <==> m in d.fenceAgentMetrics && NewEnoughFor(m))
            && (m in c.ascsMetrics <==> m in d.ascsMetrics && NewEnoughFor(m))
            && (m in c.opOptionMetrics <==> m in d.opOptionMetrics && NewEnoughFor(m)))
  {
    if p.pacemaker.Some? {
      var y := p.pacemaker.value;
      KeptExactly(y.cibBootstrapMetrics, m);
      MembersOfMergedList(y.osCommandMetrics, PacemakerOf(s).osCommandMetrics, p, m);
      if y.config.Some? {
        ConfigOfMerge(y.config.value, m);
      }
    }
  }

  lemma ConfigOfMerge(d: PacemakerConfig, m: Metric)
    ensures m in AdmissibleOnes(d.primitiveMetrics) <==> m in d.primitiveMetrics && NewEnoughFor(m)
    ensures m in AdmissibleOnes(d.rscLocationMetrics) <==> m in d.rscLocationMetrics && NewEnoughFor(m)
    ensures m in AdmissibleOnes(d.rscOptionMetrics) <==> m in d.rscOptionMetrics && NewEnoughFor(m)
    ensures m in AdmissibleOnes(d.hanaOperationMetrics) <==> m in d.hanaOperationMetrics && NewEnoughFor(m)
    ensures m in AdmissibleOnes(d.fenceAgentMetrics) <==> m in d.fenceAgentMetrics && NewEnoughFor(m)
    ensures m in AdmissibleOnes(d.ascsMetrics) <==> m in d.ascsMetrics && NewEnoughFor(m)
    ensures m in AdmissibleOnes(d.opOptionMetrics) <==> m in d.opOptionMetrics && NewEnoughFor(m)
  {
    KeptExactly(d.primitiveMetrics, m);
    KeptExactly(d.rscLocationMetrics, m);
    KeptExactly(d.rscOptionMetrics, m);
    KeptExactly(d.hanaOperationMetrics, m);
    KeptExactly(d.fenceAgentMetrics, m);
    KeptExactly(d.ascsMetrics, m);
    KeptExactly(d.opOptionMetrics, m);
  }
}

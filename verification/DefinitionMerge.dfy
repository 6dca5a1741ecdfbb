/**
 * Merging a local collection definition into the agent's
 * (internal/collectiondefinition/collectiondefinition.go).
 */
module DefinitionMerge {
  import opened Common
  import opened Metrics
  import opened Validation
  import Versions

  const AGENT_VERSION := "3.16"

  const NoWorkload := Workload(0, None, None, None, None, None, None)

  function WorkloadOf(w: Option<Workload>): Workload {
    if w.Some? then w.value else NoWorkload
  }

  /** The HANA metrics recorded before merging. Unlike the validator's, they include the indexserver.ini metrics. */
  function MappedHana(w: Workload): seq<Metric> {
    HanaOf(w).globalIniMetrics + HanaOf(w).indexserverIniMetrics + VolumeMetrics(HanaOf(w).diskVolumes) + HanaOf(w).haMetrics
    + HanaOf(w).drMetrics + HanaOf(w).backupMetrics + HanaOf(w).traceMetrics + HanaOf(w).osCommandMetrics
  }

  /** The Pacemaker configuration metrics that are recorded before the other Pacemaker metrics. */
  function MappedConfig(c: PacemakerConfig): seq<Metric> {
    c.primitiveMetrics + c.rscLocationMetrics + c.rscOptionMetrics + c.hanaOperationMetrics + c.fenceAgentMetrics + c.ascsMetrics
  }

  function MappedOthers(w: Workload): seq<Metric> {
    NetweaverOf(w).osCommandMetrics + MappedConfig(ConfigOf(w)) + PacemakerOf(w).cibBootstrapMetrics
    + PacemakerOf(w).osCommandMetrics + ConfigOf(w).opOptionMetrics + CustomOf(w).osCommandMetrics
  }

  /** The metrics recorded before merging, in order. */
  function MappedMetrics(w: Workload): seq<Metric> {
    SystemMetrics(w) + MappedHana(w) + MappedOthers(w)
  }

  ghost function Existing(w: Workload): MetricsMap {
    Recorded(MappedMetrics(w))
  }

  // ----- list by list -------------------------------------------------------

  /** The metrics that do not clash with an existing one, in order. */
  ghost function NewOnes(ms: seq<Metric>, existing: MetricsMap): seq<Metric> {
    if ms == [] then []
    else NewOnes(ms[..|ms| - 1], existing) + if Clashes(ms[|ms| - 1], existing) then [] else [ms[|ms| - 1]]
  }

  /** Whether the minimum version of a metric is well formed and not newer than the agent. */
  ghost predicate Admissible(m: Metric) {
    m.info.minVersion == "" || (Versions.IsVersion(m.info.minVersion) && !Versions.Earlier(AGENT_VERSION, m.info.minVersion))
  }

  ghost function AdmissibleOnes(ms: seq<Metric>): seq<Metric> {
    if ms == [] then []
    else AdmissibleOnes(ms[..|ms| - 1]) + if Admissible(ms[|ms| - 1]) then [ms[|ms| - 1]] else []
  }

  ghost function AdmissibleVolumes(vs: seq<Volume>): (out: seq<Volume>)
    ensures |out| == |vs|
  {
    seq(|vs|, i requires 0 <= i < |vs| => vs[i].(metrics := AdmissibleOnes(vs[i].metrics)))
  }

  /** A mergeable list: the primary metrics, then the new secondary ones, without those the agent is too old for. */
  ghost function MergedList(primary: seq<Metric>, secondary: seq<Metric>, existing: MetricsMap): seq<Metric> {
    AdmissibleOnes(primary + NewOnes(secondary, existing))
  }

  /** What a merged definition is, section by section. An absent primary section stays absent. */
  ghost predicate IsMerge(p: Workload, s: Workload, m: Workload) {
    var e := Existing(p);
    && m.version == p.version
    && m.system == MergedSystem(p.system, SystemOf(s), e)
    && m.corosync == MergedCorosync(p.corosync, CorosyncOf(s), e)
    && m.hana == MergedHana(p.hana, HanaOf(s), e)
    && m.netweaver == MergedNetweaver(p.netweaver, NetweaverOf(s), e)
    && m.pacemaker == MergedPacemaker(p.pacemaker, PacemakerOf(s), e)
    && m.custom == MergedCustom(p.custom, CustomOf(s), e)
  }

  ghost function MergedSystem(p: Option<System>, s: System, e: MetricsMap): Option<System> {
    if p.None? then None else
      Some(System(AdmissibleOnes(p.value.systemMetrics), MergedList(p.value.osCommandMetrics, s.osCommandMetrics, e)))
  }

  ghost function MergedCorosync(p: Option<Corosync>, s: Corosync, e: MetricsMap): Option<Corosync> {
    if p.None? then None else
      Some(Corosync(MergedList(p.value.configMetrics, s.configMetrics, e),
                    MergedList(p.value.osCommandMetrics, s.osCommandMetrics, e)))
  }

  ghost function MergedHana(p: Option<Hana>, s: Hana, e: MetricsMap): Option<Hana> {
    if p.None? then None else
      var x := p.value;
      Some(Hana(MergedList(x.globalIniMetrics, s.globalIniMetrics, e),
                MergedList(x.indexserverIniMetrics, s.indexserverIniMetrics, e),
                AdmissibleVolumes(x.diskVolumes), AdmissibleOnes(x.backupMetrics), AdmissibleOnes(x.haMetrics),
                AdmissibleOnes(x.drMetrics), AdmissibleOnes(x.traceMetrics),
                MergedList(x.osCommandMetrics, s.osCommandMetrics, e)))
  }

  ghost function MergedNetweaver(p: Option<Netweaver>, s: Netweaver, e: MetricsMap): Option<Netweaver> {
    if p.None? then None else Some(Netweaver(MergedList(p.value.osCommandMetrics, s.osCommandMetrics, e)))
  }

  ghost function MergedPacemaker(p: Option<Pacemaker>, s: Pacemaker, e: MetricsMap): Option<Pacemaker> {
    if p.None? then None else
      Some(Pacemaker(AdmissibleConfig(p.value.config), AdmissibleOnes(p.value.cibBootstrapMetrics),
                     MergedList(p.value.osCommandMetrics, s.osCommandMetrics, e)))
  }

  ghost function MergedCustom(p: Option<Custom>, s: Custom, e: MetricsMap): Option<Custom> {
    if p.None? then None else Some(Custom(MergedList(p.value.osCommandMetrics, s.osCommandMetrics, e)))
  }

  ghost function AdmissibleConfig(c: Option<PacemakerConfig>): Option<PacemakerConfig> {
    if c.None? then None else
      var x := c.value;
      Some(PacemakerConfig(AdmissibleOnes(x.primitiveMetrics), AdmissibleOnes(x.rscLocationMetrics),
                           AdmissibleOnes(x.rscOptionMetrics), AdmissibleOnes(x.hanaOperationMetrics),
                           AdmissibleOnes(x.fenceAgentMetrics), AdmissibleOnes(x.ascsMetrics), AdmissibleOnes(x.opOptionMetrics)))
  }

  /** A copy of an absent section has no lists to append to: merging is safe when nothing would be appended to one. */
  ghost predicate SafeToMerge(p: Workload, s: Workload) {
    var e := Existing(p);
    && (p.system.None? ==> NewOnes(SystemOf(s).osCommandMetrics, e) == [])
    && (p.corosync.None? ==> NewOnes(CorosyncOf(s).configMetrics, e) == [] && NewOnes(CorosyncOf(s).osCommandMetrics, e) == [])
    && (p.hana.None? ==>
          && NewOnes(HanaOf(s).globalIniMetrics, e) == []
          && NewOnes(HanaOf(s).indexserverIniMetrics, e) == []
          && NewOnes(HanaOf(s).osCommandMetrics, e) == [])
    && (p.netweaver.None? ==> NewOnes(NetweaverOf(s).osCommandMetrics, e) == [])
    && (p.pacemaker.None? ==> NewOnes(PacemakerOf(s).osCommandMetrics, e) == [])
    && (p.custom.None? ==> NewOnes(CustomOf(s).osCommandMetrics, e) == [])
  }

  // ----- the operations -----------------------------------------------------

  /** Records the metrics of one list, after `before` and the `part` of a section that was recorded already. */
  method MapList(ms: seq<Metric>, existing: MetricsMap, ghost before: seq<Metric>, ghost part: seq<Metric>)
    returns (out: MetricsMap, ghost more: seq<Metric>)
    requires existing == Recorded(before + part)
    ensures more == part + ms && out == Recorded(before + (part + ms))
  {
    ghost var done := before + part;
    out := existing;
    TakeAll(ms);
    for i := 0 to |ms|
      invariant done == before + part + ms[..i] && out == Recorded(done)
    {
      TakeSnoc(ms, i);
      RecordedSnoc(done, ms[i]);
      out := MapMetric(ms[i], out);
      done := done + [ms[i]];
    }
    more := part + ms;
    Regroup(before, part, ms);
  }

  method MapHana(w: Workload, existing: MetricsMap, ghost before: seq<Metric>) returns (out: MetricsMap)
    requires existing == Recorded(before)
    ensures out == Recorded(before + MappedHana(w))
  {
    var hana := HanaOf(w);
    ghost var part: seq<Metric> := [];
    assert part + hana.globalIniMetrics == hana.globalIniMetrics && before + part == before;
    out, part := MapList(hana.globalIniMetrics, existing, before, part);
    out, part := MapList(hana.indexserverIniMetrics, out, before, part);
    out, part := MapVolumes(hana.diskVolumes, out, before, part);
    out, part := MapList(hana.haMetrics, out, before, part);
    out, part := MapList(hana.drMetrics, out, before, part);
    out, part := MapList(hana.backupMetrics, out, before, part);
    out, part := MapList(hana.traceMetrics, out, before, part);
    out, part := MapList(hana.osCommandMetrics, out, before, part);
  }

  method MapVolumes(vs: seq<Volume>, existing: MetricsMap, ghost before: seq<Metric>, ghost part: seq<Metric>)
    returns (out: MetricsMap, ghost more: seq<Metric>)
    requires existing == Recorded(before + part)
    ensures more == part + VolumeMetrics(vs) && out == Recorded(before + (part + VolumeMetrics(vs)))
  {
    out, more := existing, part;
    TakeAll(vs);
    for i := 0 to |vs|
      invariant more == part + VolumeMetrics(vs[..i]) && out == Recorded(before + more)
    {
      assert vs[..i + 1][..i] == vs[..i];
      out, more := MapList(vs[i].metrics, out, before, more);
    }
  }

  method MapConfig(c: PacemakerConfig, existing: MetricsMap, ghost before: seq<Metric>) returns (out: MetricsMap)
    requires existing == Recorded(before)
    ensures out == Recorded(before + MappedConfig(c))
  {
    ghost var part: seq<Metric> := [];
    assert part + c.primitiveMetrics == c.primitiveMetrics && before + part == before;
    out, part := MapList(c.primitiveMetrics, existing, before, part);
    out, part := MapList(c.rscLocationMetrics, out, before, part);
    out, part := MapList(c.rscOptionMetrics, out, before, part);
    out, part := MapList(c.hanaOperationMetrics, out, before, part);
    out, part := MapList(c.fenceAgentMetrics, out, before, part);
    out, part := MapList(c.ascsMetrics, out, before, part);
  }

  method MapOthers(w: Workload, existing: MetricsMap, ghost before: seq<Metric>) returns (out: MetricsMap)
    requires existing == Recorded(before)
    ensures out == Recorded(before + MappedOthers(w))
  {
    ghost var part := NetweaverOf(w).osCommandMetrics;
    assert before + [] == before && [] + part == part;
    out, part := MapList(NetweaverOf(w).osCommandMetrics, existing, before, []);
    out := MapConfig(ConfigOf(w), out, before + part);
    Regroup(before, part, MappedConfig(ConfigOf(w)));
    part := part + MappedConfig(ConfigOf(w));
    out, part := MapList(PacemakerOf(w).cibBootstrapMetrics, out, before, part);
    out, part := MapList(PacemakerOf(w).osCommandMetrics, out, before, part);
    out, part := MapList(ConfigOf(w).opOptionMetrics, out, before, part);
    out, part := MapList(CustomOf(w).osCommandMetrics, out, before, part);
  }

  method MapSystem(w: Workload) returns (out: MetricsMap)
    ensures out == Recorded(SystemMetrics(w))
  {
    ghost var part: seq<Metric> := [];
    out := map[];
    assert part + SystemOf(w).systemMetrics == SystemOf(w).systemMetrics && part + part == part;
    out, part := MapList(SystemOf(w).systemMetrics, out, [], part);
    out, part := MapList(SystemOf(w).osCommandMetrics, out, [], part);
    out, part := MapList(CorosyncOf(w).configMetrics, out, [], part);
    out, part := MapList(CorosyncOf(w).osCommandMetrics, out, [], part);
    assert [] + part == part;
  }

  method MapWorkload(w: Workload) returns (existing: MetricsMap)
    ensures existing == Existing(w)
  {
    existing := MapSystem(w);
    existing := MapHana(w, existing, SystemMetrics(w));
    existing := MapOthers(w, existing, SystemMetrics(w) + MappedHana(w));
  }

  /** Records one metric: its key gets an entry if it has none, then its vendor is added to the entry. */
  method MapMetric(m: Metric, existing: MetricsMap) returns (out: MetricsMap)
    ensures out == Record(existing, m)
  {
    out := existing;
    var k := Key(m);
    if k !in out {
      out := out[k := {}];
    }
    out := out[k := out[k] + {OsVendor(m)}];
  }

  /** Appends to a copy of a primary list the secondary metrics that are not in the primary definition. */
  method MergeList(primary: seq<Metric>, secondary: seq<Metric>, existing: MetricsMap) returns (merged: seq<Metric>)
    ensures merged == primary + NewOnes(secondary, existing)
  {
    merged := primary;
    TakeAll(secondary);
    for i := 0 to |secondary|
      invariant merged == primary + NewOnes(secondary[..i], existing)
    {
      assert secondary[..i + 1][..i] == secondary[..i];
      if !Clashes(secondary[i], existing) {
        merged := merged + [secondary[i]];
      }
    }
  }

  method IsValidVersion(m: Metric) returns (valid: bool)
    ensures valid == Admissible(m)
  {
    if m.info.minVersion == "" {
      return true;
    }
    if !Versions.IsVersion(m.info.minVersion) {
      return false;
    }
    var c := Versions.CompareVersions(m.info.minVersion, AGENT_VERSION);
    valid := c != 1;
  }

  method FilterList(ms: seq<Metric>) returns (filtered: seq<Metric>)
    ensures filtered == AdmissibleOnes(ms)
  {
    filtered := [];
    TakeAll(ms);
    for i := 0 to |ms|
      invariant filtered == AdmissibleOnes(ms[..i])
    {
      assert ms[..i + 1][..i] == ms[..i];
      var valid := IsValidVersion(ms[i]);
      if valid {
        filtered := filtered + [ms[i]];
      }
    }
  }

  method FilterVolumes(vs: seq<Volume>) returns (filtered: seq<Volume>)
    ensures filtered == AdmissibleVolumes(vs)
  {
    filtered := vs;
    for i := 0 to |vs|
      invariant |filtered| == |vs|
      invariant forall k :: 0 <= k < |vs| ==> filtered[k] == if k < i then AdmissibleVolumes(vs)[k] else vs[k]
    {
      var metrics := FilterList(vs[i].metrics);
      filtered := filtered[i := vs[i].(metrics := metrics)];
    }
  }

  /** Copies the primary definition and appends the new metrics of the secondary one. */
  method MergeWorkloads(p: Workload, s: Workload, e: MetricsMap) returns (m: Workload)
    requires e == Existing(p) && SafeToMerge(p, s)
    ensures m.version == p.version
    ensures m.system == if p.system.None? then None else
      Some(p.system.value.(osCommandMetrics := p.system.value.osCommandMetrics + NewOnes(SystemOf(s).osCommandMetrics, e)))
    ensures m.corosync == if p.corosync.None? then None else
      Some(p.corosync.value.(configMetrics := p.corosync.value.configMetrics + NewOnes(CorosyncOf(s).configMetrics, e),
                             osCommandMetrics := p.corosync.value.osCommandMetrics + NewOnes(CorosyncOf(s).osCommandMetrics, e)))
    ensures m.hana == if p.hana.None? then None else
      Some(p.hana.value.(globalIniMetrics := p.hana.value.globalIniMetrics + NewOnes(HanaOf(s).globalIniMetrics, e),
                         indexserverIniMetrics := p.hana.value.indexserverIniMetrics + NewOnes(HanaOf(s).indexserverIniMetrics, e),
                         osCommandMetrics := p.hana.value.osCommandMetrics + NewOnes(HanaOf(s).osCommandMetrics, e)))
    ensures m.netweaver == if p.netweaver.None? then None else
      Some(Netweaver(p.netweaver.value.osCommandMetrics + NewOnes(NetweaverOf(s).osCommandMetrics, e)))
    ensures m.pacemaker == if p.pacemaker.None? then None else
      Some(p.pacemaker.value.(osCommandMetrics := p.pacemaker.value.osCommandMetrics + NewOnes(PacemakerOf(s).osCommandMetrics, e)))
    ensures m.custom == if p.custom.None? then None else
      Some(Custom(p.custom.value.osCommandMetrics + NewOnes(CustomOf(s).osCommandMetrics, e)))
  {
    m := p;
    if p.system.Some? {
      var os := MergeList(p.system.value.osCommandMetrics, SystemOf(s).osCommandMetrics, e);
      m := m.(system := Some(p.system.value.(osCommandMetrics := os)));
    }
    if p.corosync.Some? {
      var config := MergeList(p.corosync.value.configMetrics, CorosyncOf(s).configMetrics, e);
      var os := MergeList(p.corosync.value.osCommandMetrics, CorosyncOf(s).osCommandMetrics, e);
      m := m.(corosync := Some(Corosync(config, os)));
    }
    if p.hana.Some? {
      var global := MergeList(p.hana.value.globalIniMetrics, HanaOf(s).globalIniMetrics, e);
      var index := MergeList(p.hana.value.indexserverIniMetrics, HanaOf(s).indexserverIniMetrics, e);
      var os := MergeList(p.hana.value.osCommandMetrics, HanaOf(s).osCommandMetrics, e);
      m := m.(hana := Some(p.hana.value.(globalIniMetrics := global, indexserverIniMetrics := index, osCommandMetrics := os)));
    }
    if p.netweaver.Some? {
      var os := MergeList(p.netweaver.value.osCommandMetrics, NetweaverOf(s).osCommandMetrics, e);
      m := m.(netweaver := Some(Netweaver(os)));
    }
    if p.pacemaker.Some? {
      var os := MergeList(p.pacemaker.value.osCommandMetrics, PacemakerOf(s).osCommandMetrics, e);
      m := m.(pacemaker := Some(p.pacemaker.value.(osCommandMetrics := os)));
    }
    if p.custom.Some? {
      var os := MergeList(p.custom.value.osCommandMetrics, CustomOf(s).osCommandMetrics, e);
      m := m.(custom := Some(Custom(os)));
    }
  }

  method FilterConfig(c: Option<PacemakerConfig>) returns (out: Option<PacemakerConfig>)
    ensures out == AdmissibleConfig(c)
  {
    if c.None? {
      return None;
    }
    var x := c.value;
    var primitive := FilterList(x.primitiveMetrics);
    var location := FilterList(x.rscLocationMetrics);
    var option := FilterList(x.rscOptionMetrics);
    var operation := FilterList(x.hanaOperationMetrics);
    var fence := FilterList(x.fenceAgentMetrics);
    var ascs := FilterList(x.ascsMetrics);
    var op := FilterList(x.opOptionMetrics);
    out := Some(PacemakerConfig(primitive, location, option, operation, fence, ascs, op));
  }

  method FilterHana(h: Hana) returns (out: Hana)
    ensures out == Hana(AdmissibleOnes(h.globalIniMetrics), AdmissibleOnes(h.indexserverIniMetrics), AdmissibleVolumes(h.diskVolumes),
                        AdmissibleOnes(h.backupMetrics), AdmissibleOnes(h.haMetrics), AdmissibleOnes(h.drMetrics),
                        AdmissibleOnes(h.traceMetrics), AdmissibleOnes(h.osCommandMetrics))
  {
    var os := FilterList(h.osCommandMetrics);
    var global := FilterList(h.globalIniMetrics);
    var index := FilterList(h.indexserverIniMetrics);
    var ha := FilterList(h.haMetrics);
    var dr := FilterList(h.drMetrics);
    var trace := FilterList(h.traceMetrics);
    var volumes := FilterVolumes(h.diskVolumes);
    var backup := FilterList(h.backupMetrics);
    out := Hana(global, index, volumes, backup, ha, dr, trace, os);
  }

  ghost function FilteredSystem(x: Option<System>): Option<System> {
    if x.None? then None else Some(System(AdmissibleOnes(x.value.systemMetrics), AdmissibleOnes(x.value.osCommandMetrics)))
  }

  ghost function FilteredCorosync(x: Option<Corosync>): Option<Corosync> {
    if x.None? then None else Some(Corosync(AdmissibleOnes(x.value.configMetrics), AdmissibleOnes(x.value.osCommandMetrics)))
  }

  ghost function FilteredHana(x: Option<Hana>): Option<Hana> {
    if x.None? then None else
      var h := x.value;
      Some(Hana(AdmissibleOnes(h.globalIniMetrics), AdmissibleOnes(h.indexserverIniMetrics), AdmissibleVolumes(h.diskVolumes),
                AdmissibleOnes(h.backupMetrics), AdmissibleOnes(h.haMetrics), AdmissibleOnes(h.drMetrics),
                AdmissibleOnes(h.traceMetrics), AdmissibleOnes(h.osCommandMetrics)))
  }

  ghost function FilteredNetweaver(x: Option<Netweaver>): Option<Netweaver> {
    if x.None? then None else Some(Netweaver(AdmissibleOnes(x.value.osCommandMetrics)))
  }

  ghost function FilteredPacemaker(x: Option<Pacemaker>): Option<Pacemaker> {
    if x.None? then None else
      Some(Pacemaker(AdmissibleConfig(x.value.config), AdmissibleOnes(x.value.cibBootstrapMetrics),
                     AdmissibleOnes(x.value.osCommandMetrics)))
  }

  ghost function FilteredCustom(x: Option<Custom>): Option<Custom> {
    if x.None? then None else Some(Custom(AdmissibleOnes(x.value.osCommandMetrics)))
  }

  /** Drops the metrics that the agent is too old for. */
  method FilterMetrics(w: Workload) returns (m: Workload)
    ensures m == Workload(w.version, FilteredSystem(w.system), FilteredCorosync(w.corosync), FilteredHana(w.hana),
                          FilteredNetweaver(w.netweaver), FilteredPacemaker(w.pacemaker), FilteredCustom(w.custom))
  {
    m := w;
    if m.system.Some? {
      var os := FilterList(m.system.value.osCommandMetrics);
      var sys := FilterList(m.system.value.systemMetrics);
      m := m.(system := Some(System(sys, os)));
    }
    if m.corosync.Some? {
      var os := FilterList(m.corosync.value.osCommandMetrics);
      var config := FilterList(m.corosync.value.configMetrics);
      m := m.(corosync := Some(Corosync(config, os)));
    }
    if m.hana.Some? {
      var hana := FilterHana(m.hana.value);
      m := m.(hana := Some(hana));
    }
    if m.netweaver.Some? {
      var os := FilterList(m.netweaver.value.osCommandMetrics);
      m := m.(netweaver := Some(Netweaver(os)));
    }
    if m.pacemaker.Some? {
      var os := FilterList(m.pacemaker.value.osCommandMetrics);
      var cib := FilterList(m.pacemaker.value.cibBootstrapMetrics);
      var config := FilterConfig(m.pacemaker.value.config);
      m := m.(pacemaker := Some(Pacemaker(config, cib, os)));
    }
    if m.custom.Some? {
      var os := FilterList(m.custom.value.osCommandMetrics);
      m := m.(custom := Some(Custom(os)));
    }
  }

  /** Merges two definitions, then drops the metrics the agent is too old for. */
  method Merge(primary: Option<Workload>, secondary: Option<Workload>) returns (m: Workload)
    requires SafeToMerge(WorkloadOf(primary), WorkloadOf(secondary))
    ensures IsMerge(WorkloadOf(primary), WorkloadOf(secondary), m)
  {
    var p, s := WorkloadOf(primary), WorkloadOf(secondary);
    var existing := MapWorkload(p);
    m := MergeWorkloads(p, s, existing);
    m := FilterMetrics(m);
  }
}

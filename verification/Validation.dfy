/**
 * Validation of a collection definition (internal/collectiondefinition/validator.go).
 */
module Validation {
  import opened Common
  import opened Metrics
  import Versions

  // ----- definitions --------------------------------------------------------

  datatype System = System(systemMetrics: seq<Metric>, osCommandMetrics: seq<Metric>)
  datatype Corosync = Corosync(configMetrics: seq<Metric>, osCommandMetrics: seq<Metric>)
  datatype Volume = Volume(basepath: string, metrics: seq<Metric>)
  datatype Hana = Hana(
    globalIniMetrics: seq<Metric>, indexserverIniMetrics: seq<Metric>, diskVolumes: seq<Volume>,
    backupMetrics: seq<Metric>, haMetrics: seq<Metric>, drMetrics: seq<Metric>, traceMetrics: seq<Metric>,
    osCommandMetrics: seq<Metric>)
  datatype Netweaver = Netweaver(osCommandMetrics: seq<Metric>)
  datatype PacemakerConfig = PacemakerConfig(
    primitiveMetrics: seq<Metric>, rscLocationMetrics: seq<Metric>, rscOptionMetrics: seq<Metric>,
    hanaOperationMetrics: seq<Metric>, fenceAgentMetrics: seq<Metric>, ascsMetrics: seq<Metric>, opOptionMetrics: seq<Metric>)
  datatype Pacemaker = Pacemaker(config: Option<PacemakerConfig>, cibBootstrapMetrics: seq<Metric>, osCommandMetrics: seq<Metric>)
  datatype Custom = Custom(osCommandMetrics: seq<Metric>)

  /** A workload validation definition. A section may be absent. */
  datatype Workload = Workload(
    version: int, system: Option<System>, corosync: Option<Corosync>, hana: Option<Hana>,
    netweaver: Option<Netweaver>, pacemaker: Option<Pacemaker>, custom: Option<Custom>)

  const NoConfig := PacemakerConfig([], [], [], [], [], [], [])

  /** Reading from an absent section finds only empty lists. */
  function SystemOf(w: Workload): System { if w.system.Some? then w.system.value else System([], []) }
  function CorosyncOf(w: Workload): Corosync { if w.corosync.Some? then w.corosync.value else Corosync([], []) }
  function HanaOf(w: Workload): Hana { if w.hana.Some? then w.hana.value else Hana([], [], [], [], [], [], [], []) }
  function NetweaverOf(w: Workload): Netweaver { if w.netweaver.Some? then w.netweaver.value else Netweaver([]) }
  function PacemakerOf(w: Workload): Pacemaker { if w.pacemaker.Some? then w.pacemaker.value else Pacemaker(None, [], []) }
  function ConfigOf(w: Workload): PacemakerConfig {
    if PacemakerOf(w).config.Some? then PacemakerOf(w).config.value else NoConfig
  }
  function CustomOf(w: Workload): Custom { if w.custom.Some? then w.custom.value else Custom([]) }

  function VolumeMetrics(vs: seq<Volume>): seq<Metric> {
    if vs == [] then [] else VolumeMetrics(vs[..|vs| - 1]) + vs[|vs| - 1].metrics
  }

  function SystemMetrics(w: Workload): seq<Metric> {
    SystemOf(w).systemMetrics + SystemOf(w).osCommandMetrics + CorosyncOf(w).configMetrics + CorosyncOf(w).osCommandMetrics
  }

  /** The HANA metrics the validator visits. The indexserver.ini metrics are not among them. */
  function HanaMetrics(w: Workload): seq<Metric> {
    HanaOf(w).globalIniMetrics + VolumeMetrics(HanaOf(w).diskVolumes) + HanaOf(w).backupMetrics + HanaOf(w).haMetrics
    + HanaOf(w).drMetrics + HanaOf(w).traceMetrics + HanaOf(w).osCommandMetrics
  }

  function ConfigMetrics(c: PacemakerConfig): seq<Metric> {
    c.primitiveMetrics + c.rscLocationMetrics + c.rscOptionMetrics + c.hanaOperationMetrics
    + c.fenceAgentMetrics + c.ascsMetrics + c.opOptionMetrics
  }

  function OtherMetrics(w: Workload): seq<Metric> {
    NetweaverOf(w).osCommandMetrics + ConfigMetrics(ConfigOf(w))
    + PacemakerOf(w).cibBootstrapMetrics + PacemakerOf(w).osCommandMetrics + CustomOf(w).osCommandMetrics
  }

  /** The metrics the validator visits, in order. */
  function VisitedMetrics(w: Workload): seq<Metric> {
    SystemMetrics(w) + HanaMetrics(w) + OtherMetrics(w)
  }

  function Visited(w: Option<Workload>): seq<Metric> {
    if w.None? then [] else VisitedMetrics(w.value)
  }

  // ----- what makes a metric valid ------------------------------------------

  /** What validation depends on: the agent version, and which regular expressions compile. */
  datatype Checks = Checks(agentVersion: string, compiles: string -> bool)
  {
    function One(failed: bool): nat {
      if failed then 1 else 0
    }

    ghost predicate VersionTooNew(m: Metric) {
      var v := m.info.minVersion;
      v != "" && (!Versions.IsVersion(v) || Versions.Earlier(agentVersion, v))
    }

    predicate BadRegex(value: Option<string>) {
      value.Some? && value.value != "" && !compiles(value.value)
    }

    function RuleFailures(r: Rule): nat {
      One(r.conditions == 0) + One(r.ifTrue.None?) + One(BadRegex(r.ifTrue)) + One(BadRegex(r.ifFalse))
    }

    function OrFailures(rs: seq<Rule>): nat {
      if rs == [] then 0 else OrFailures(rs[..|rs| - 1]) + RuleFailures(rs[|rs| - 1])
    }

    function EvaluationFailures(rules: Rules): nat {
      match rules
      case NoRules => 1
      case AndRules(r) => RuleFailures(r)
      case OrRules(rs) => OrFailures(rs)
    }

    function BodyFailures(m: Metric): nat {
      match m
      case VariableMetric(_, specified) => One(!specified)
      case EvalMetric(_, rules) => EvaluationFailures(rules)
      case OsCommandMetric(_, _, command, rules) => One(command == "") + EvaluationFailures(rules)
    }

    /** Failures of a metric that do not involve the agent version or other metrics. */
    ghost function OwnFailures(m: Metric): nat {
      One(m.info.metricType == "") + One(m.info.metricLabel == "") + BodyFailures(m)
    }

    predicate Keyed(m: Metric) {
      m.info.metricType != "" && m.info.metricLabel != ""
    }

    /** The metrics with a key, which are the ones recorded while validating. */
    ghost function KeyedOf(ms: seq<Metric>): seq<Metric> {
      if ms == [] then []
      else KeyedOf(ms[..|ms| - 1]) + if Keyed(ms[|ms| - 1]) then [ms[|ms| - 1]] else []
    }

    ghost function Seen(ms: seq<Metric>): MetricsMap {
      Recorded(KeyedOf(ms))
    }

    /** The number of failures that validating a list of metrics in order reports. */
    ghost function Failures(ms: seq<Metric>): nat {
      if ms == [] then 0
      else
        var init, m := ms[..|ms| - 1], ms[|ms| - 1];
        Failures(init) + One(VersionTooNew(m)) + OwnFailures(m) + One(Keyed(m) && Clashes(m, Seen(init)))
    }

    ghost predicate WellFormed(m: Metric) {
      !VersionTooNew(m) && OwnFailures(m) == 0
    }

    /** A rule that has conditions and a value to use if true, and whose regular expressions compile. */
    predicate SoundRule(r: Rule) {
      r.conditions != 0 && r.ifTrue.Some? && !BadRegex(r.ifTrue) && !BadRegex(r.ifFalse)
    }

    /** There are rules, or alternatives to choose from, which may be none, and all of them are sound. */
    predicate SoundRules(rules: Rules) {
      match rules
      case NoRules => false
      case AndRules(r) => SoundRule(r)
      case OrRules(rs) => forall r :: r in rs ==> SoundRule(r)
    }

    lemma {:induction false} OrFailuresExactly(rs: seq<Rule>)
      ensures OrFailures(rs) == 0 <==> forall r :: r in rs ==> SoundRule(r)
    {
      if rs != [] {
        var init, last := rs[..|rs| - 1], rs[|rs| - 1];
        OrFailuresExactly(init);
        assert forall r :: r in rs <==> r in init || r == last by {
          assert rs == init + [last];
        }
        assert RuleFailures(last) == 0 <==> SoundRule(last);
      }
    }

    /** The failures of a rule: no conditions, no value to use if true, and each regular expression that does not compile. */
    lemma RuleFailuresExactly(r: Rule)
      ensures SoundRule(r) <==>
        && r.conditions > 0 && r.ifTrue.Some?
        && (r.ifTrue.value == "" || compiles(r.ifTrue.value))
        && (r.ifFalse.Some? ==> r.ifFalse.value == "" || compiles(r.ifFalse.value))
      ensures RuleFailures(r)
           == (if r.conditions == 0 then 1 else 0) + (if r.ifTrue.None? then 1 else 0)
              + (if r.ifTrue.Some? && r.ifTrue.value != "" && !compiles(r.ifTrue.value) then 1 else 0)
              + (if r.ifFalse.Some? && r.ifFalse.value != "" && !compiles(r.ifFalse.value) then 1 else 0)
    {
    }

    /** The failures of the rules of an evaluation: one if there are none, otherwise those of all the rules. */
    lemma RulesFailuresExactly(rules: Rules, r: Rule)
      ensures rules.NoRules? ==> EvaluationFailures(rules) == 1
      ensures rules == AndRules(r) ==> EvaluationFailures(rules) == RuleFailures(r)
      ensures EvaluationFailures(OrRules([])) == 0
      ensures rules.OrRules? ==> EvaluationFailures(OrRules(rules.rules + [r])) == EvaluationFailures(rules) + RuleFailures(r)
    {
      if rules.OrRules? {
        assert (rules.rules + [r])[..|rules.rules|] == rules.rules;
      }
    }

    /** The failures of a metric apart from its minimum version and from other metrics. */
    lemma OwnFailuresAre(m: Metric)
      ensures OwnFailures(m)
           == (if m.info.metricType == "" then 1 else 0) + (if m.info.metricLabel == "" then 1 else 0)
              + if m.VariableMetric? then (if m.specified then 0 else 1)
                else (if m.OsCommandMetric? && m.command == "" then 1 else 0) + EvaluationFailures(m.rules)
    {
    }

    /** What a metric is that causes no failure apart from its minimum version and from other metrics. */
    lemma OwnFailuresExactly(m: Metric)
      ensures OwnFailures(m) == 0 <==>
        && m.info.metricType != "" && m.info.metricLabel != ""
        && (m.VariableMetric? ==> m.specified)
        && (m.OsCommandMetric? ==> m.command != "")
        && (!m.VariableMetric? ==> SoundRules(m.rules))
    {
      if !m.VariableMetric? && m.rules.OrRules? {
        OrFailuresExactly(m.rules.rules);
      }
    }

    lemma {:induction false} KeyedAll(ms: seq<Metric>)
      requires forall m :: m in ms ==> Keyed(m)
      ensures KeyedOf(ms) == ms
    {
      if ms != [] {
        var init := ms[..|ms| - 1];
        assert ms == init + [ms[|ms| - 1]];
        KeyedAll(init);
      }
    }

    lemma SeenStep(ms: seq<Metric>, m: Metric)
      ensures Seen(ms + [m]) == if Keyed(m) then Record(Seen(ms), m) else Seen(ms)
      ensures Failures(ms + [m]) == Failures(ms) + One(VersionTooNew(m)) + OwnFailures(m) + One(Keyed(m) && Clashes(m, Seen(ms)))
    {
      assert (ms + [m])[..|ms|] == ms;
      var ks := KeyedOf(ms);
      assert KeyedOf(ms + [m]) == if Keyed(m) then ks + [m] else ks;
      assert (ks + [m])[..|ks|] == ks;
    }

    /** No failure is reported exactly when every metric is well formed and no two clash, whatever the order. */
    lemma {:induction false} NoFailuresExactly(ms: seq<Metric>)
      ensures Failures(ms) == 0 <==> (forall m :: m in ms ==> WellFormed(m)) && PairwiseCompatible(ms)
    {
      if ms != [] {
        var init, m := ms[..|ms| - 1], ms[|ms| - 1];
        assert ms == init + [m];
        NoFailuresExactly(init);
        PairwiseLast(init, m);
        if Failures(init) == 0 && WellFormed(m) {
          ClashesWithAny(init, m);
        }
      }
    }

    lemma ClashesWithAny(init: seq<Metric>, m: Metric)
      requires forall x :: x in init ==> WellFormed(x)
      ensures Clashes(m, Seen(init)) <==> exists x :: x in init && !Compatible(x, m)
    {
      KeyedAll(init);
      ClashesExactly(m, init);
    }

    /** Reordering the metrics changes the number of failures at most, never whether there are any. */
    lemma ValidityOrderFree(ms: seq<Metric>, ns: seq<Metric>)
      requires multiset(ms) == multiset(ns)
      ensures Failures(ms) == 0 <==> Failures(ns) == 0
    {
      NoFailuresExactly(ms);
      NoFailuresExactly(ns);
      OrderIrrelevant(ms, ns);
      assert forall m :: m in ms <==> m in multiset(ms);
      assert forall m :: m in ns <==> m in multiset(ns);
    }
  }

  lemma PairwiseLast(init: seq<Metric>, m: Metric)
    ensures PairwiseCompatible(init + [m]) <==> PairwiseCompatible(init) && forall x :: x in init ==> Compatible(x, m)
  {
    var ms := init + [m];
    if PairwiseCompatible(ms) {
      forall i, j | 0 <= i < j < |init| ensures Compatible(init[i], init[j]) {
        assert Compatible(ms[i], ms[j]);
      }
      forall x | x in init ensures Compatible(x, m) {
        var i :| 0 <= i < |init| && init[i] == x;
        assert Compatible(ms[i], ms[|init|]);
      }
    }
  }

  // ----- the validator ------------------------------------------------------

  class Validator {
    const agentVersion: string
    const compiles: string -> bool
    const definition: Option<Workload>
    var failureCount: int
    var valid: bool
    var workloadValidationMetrics: MetricsMap

    constructor (version: string, compiles: string -> bool, definition: Option<Workload>)
      ensures agentVersion == version && this.compiles == compiles && this.definition == definition
      ensures failureCount == 0 && !valid && workloadValidationMetrics == map[]
    {
      agentVersion, this.compiles, this.definition := version, compiles, definition;
      failureCount, valid, workloadValidationMetrics := 0, false, map[];
    }

    function Policy(): Checks {
      Checks(agentVersion, compiles)
    }

    /** The state after validating the given metrics from scratch. */
    ghost predicate After(ms: seq<Metric>)
      reads this
    {
      && failureCount == Policy().Failures(ms)
      && valid == (failureCount == 0)
      && workloadValidationMetrics == Policy().Seen(ms)
    }

    /** Validates the definition, forgetting any earlier run. */
    method Validate()
      modifies this
      ensures After(Visited(definition))
      ensures valid <==> (forall m :: m in Visited(definition) ==> Policy().WellFormed(m)) && PairwiseCompatible(Visited(definition))
    {
      Policy().NoFailuresExactly(Visited(definition));
      valid, failureCount, workloadValidationMetrics := true, 0, map[];
      if definition.Some? {
        ValidateSystem(definition.value, []);
        assert [] + SystemMetrics(definition.value) == SystemMetrics(definition.value);
        ValidateHana(definition.value, SystemMetrics(definition.value));
        ValidateOthers(definition.value, SystemMetrics(definition.value) + HanaMetrics(definition.value));
      }
    }

    method ValidateSystem(w: Workload, ghost before: seq<Metric>)
      requires After(before)
      modifies this
      ensures After(before + SystemMetrics(w))
    {
      var system, corosync := SystemOf(w), CorosyncOf(w);
      ghost var part: seq<Metric> := [];
      assert part + system.systemMetrics == system.systemMetrics && before + part == before;
      part := ValidateList(system.systemMetrics, before, part);
      part := ValidateList(system.osCommandMetrics, before, part);
      part := ValidateList(corosync.configMetrics, before, part);
      part := ValidateList(corosync.osCommandMetrics, before, part);
    }

    method ValidateHana(w: Workload, ghost before: seq<Metric>)
      requires After(before)
      modifies this
      ensures After(before + HanaMetrics(w))
    {
      var hana := HanaOf(w);
      ghost var part: seq<Metric> := [];
      assert part + hana.globalIniMetrics == hana.globalIniMetrics && before + part == before;
      part := ValidateList(hana.globalIniMetrics, before, part);
      part := ValidateVolumes(hana.diskVolumes, before, part);
      part := ValidateList(hana.backupMetrics, before, part);
      part := ValidateList(hana.haMetrics, before, part);
      part := ValidateList(hana.drMetrics, before, part);
      part := ValidateList(hana.traceMetrics, before, part);
      part := ValidateList(hana.osCommandMetrics, before, part);
    }

    method ValidateVolumes(vs: seq<Volume>, ghost before: seq<Metric>, ghost part: seq<Metric>) returns (ghost more: seq<Metric>)
      requires After(before + part)
      modifies this
      ensures more == part + VolumeMetrics(vs) && After(before + more)
    {
      more := part;
      TakeAll(vs);
      for i := 0 to |vs|
        invariant more == part + VolumeMetrics(vs[..i]) && After(before + more)
      {
        assert vs[..i + 1][..i] == vs[..i];
        more := ValidateList(vs[i].metrics, before, more);
      }
    }

    method ValidateConfig(c: PacemakerConfig, ghost before: seq<Metric>)
      requires After(before)
      modifies this
      ensures After(before + ConfigMetrics(c))
    {
      ghost var part: seq<Metric> := [];
      assert part + c.primitiveMetrics == c.primitiveMetrics && before + part == before;
      part := ValidateList(c.primitiveMetrics, before, part);
      part := ValidateList(c.rscLocationMetrics, before, part);
      part := ValidateList(c.rscOptionMetrics, before, part);
      part := ValidateList(c.hanaOperationMetrics, before, part);
      part := ValidateList(c.fenceAgentMetrics, before, part);
      part := ValidateList(c.ascsMetrics, before, part);
      part := ValidateList(c.opOptionMetrics, before, part);
    }

    method ValidateOthers(w: Workload, ghost before: seq<Metric>)
      requires After(before)
      modifies this
      ensures After(before + OtherMetrics(w))
    {
      ghost var part := NetweaverOf(w).osCommandMetrics;
      assert before + [] == before && [] + part == part;
      part := ValidateList(NetweaverOf(w).osCommandMetrics, before, []);
      ValidateConfig(ConfigOf(w), before + part);
      Regroup(before, part, ConfigMetrics(ConfigOf(w)));
      part := part + ConfigMetrics(ConfigOf(w));
      part := ValidateList(PacemakerOf(w).cibBootstrapMetrics, before, part);
      part := ValidateList(PacemakerOf(w).osCommandMetrics, before, part);
      part := ValidateList(CustomOf(w).osCommandMetrics, before, part);
    }

    /** Validates the metrics of one list, after `before` and the `part` of a section that was validated already. */
    method ValidateList(ms: seq<Metric>, ghost before: seq<Metric>, ghost part: seq<Metric>) returns (ghost more: seq<Metric>)
      requires After(before + part)
      modifies this
      ensures more == part + ms && After(before + more)
    {
      ghost var done := before + part;
      TakeAll(ms);
      for i := 0 to |ms|
        invariant done == before + part + ms[..i] && After(done)
      {
        TakeSnoc(ms, i);
        ValidateMetric(ms[i], done);
        done := done + [ms[i]];
      }
      more := part + ms;
      Regroup(before, part, ms);
    }

    method ValidateMetric(m: Metric, ghost before: seq<Metric>)
      requires After(before)
      modifies this
      ensures After(before + [m])
    {
      Policy().SeenStep(before, m);
      ValidateMetricInfo(m);
      match m {
        case VariableMetric(_, specified) =>
          if !specified {
            ValidationFailure();
          }
        case EvalMetric(_, rules) =>
          ValidateMetricEvaluation(rules);
        case OsCommandMetric(_, _, command, rules) =>
          if command == "" {
            ValidationFailure();
          }
          ValidateMetricEvaluation(rules);
      }
    }

    method ValidationFailure()
      requires failureCount >= 0
      modifies this`failureCount, this`valid
      ensures failureCount == old(failureCount) + 1 && !valid
    {
      failureCount := failureCount + 1;
      valid := false;
    }

    /** A metric should not have a minimum version that exceeds the agent version. */
    method ValidateVersion(m: Metric)
      requires failureCount >= 0 && valid == (failureCount == 0)
      modifies this`failureCount, this`valid
      ensures failureCount == old(failureCount) + Policy().One(Policy().VersionTooNew(m)) && valid == (failureCount == 0)
    {
      if m.info.minVersion != "" {
        if !Versions.IsVersion(m.info.minVersion) {
          ValidationFailure();
        } else {
          var c := Versions.CompareVersions(m.info.minVersion, agentVersion);
          if c == 1 {
            ValidationFailure();
          }
        }
      }
    }

    method ValidateMetricInfo(m: Metric)
      requires failureCount >= 0 && valid == (failureCount == 0)
      modifies this
      ensures failureCount >= 0 && valid == (failureCount == 0)
      ensures var c := Policy();
        failureCount == old(failureCount) + c.One(c.VersionTooNew(m)) + c.One(m.info.metricType == "") + c.One(m.info.metricLabel == "")
                        + c.One(c.Keyed(m) && Clashes(m, old(workloadValidationMetrics)))
      ensures workloadValidationMetrics ==
        if Policy().Keyed(m) then Record(old(workloadValidationMetrics), m) else old(workloadValidationMetrics)
    {
      ValidateVersion(m);
      var shouldReturn := false;
      if m.info.metricType == "" {
        ValidationFailure();
        shouldReturn := true;
      }
      if m.info.metricLabel == "" {
        ValidationFailure();
        shouldReturn := true;
      }
      if shouldReturn {
        return;
      }
      var vendor, k := OsVendor(m), Key(m);
      if k in workloadValidationMetrics {
        var vendors := workloadValidationMetrics[k];
        if vendor in vendors || AllVendors in vendors || vendor == AllVendors {
          ValidationFailure();
        }
        workloadValidationMetrics := workloadValidationMetrics[k := vendors + {vendor}];
      } else {
        assert {} + {vendor} == {vendor};
        workloadValidationMetrics := workloadValidationMetrics[k := {vendor}];
      }
    }

    method ValidateMetricEvaluation(rules: Rules)
      requires failureCount >= 0 && valid == (failureCount == 0)
      modifies this`failureCount, this`valid
      ensures failureCount == old(failureCount) + Policy().EvaluationFailures(rules) && valid == (failureCount == 0)
    {
      match rules {
        case AndRules(r) =>
          ValidateRule(r);
        case OrRules(rs) =>
          TakeAll(rs);
          for i := 0 to |rs|
            invariant failureCount == old(failureCount) + Policy().OrFailures(rs[..i]) && valid == (failureCount == 0)
          {
            assert rs[..i + 1][..i] == rs[..i];
            ValidateRule(rs[i]);
          }
        case NoRules =>
          ValidationFailure();
      }
    }

    method ValidateRule(r: Rule)
      requires failureCount >= 0 && valid == (failureCount == 0)
      modifies this`failureCount, this`valid
      ensures failureCount == old(failureCount) + Policy().RuleFailures(r) && valid == (failureCount == 0)
    {
      if r.conditions == 0 {
        ValidationFailure();
      }
      if r.ifTrue.None? {
        ValidationFailure();
      }
      if r.ifTrue.Some? && r.ifTrue.value != "" && !compiles(r.ifTrue.value) {
        ValidationFailure();
      }
      if r.ifFalse.Some? && r.ifFalse.value != "" && !compiles(r.ifFalse.value) {
        ValidationFailure();
      }
    }
  }
}

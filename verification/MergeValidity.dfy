/**
 * Merging valid definitions gives a valid definition, although only the
 * primary metrics are consulted while merging.
 */
module MergeValidity {
  import opened Metrics
  import opened Validation
  import opened DefinitionMerge

  // ----- bags of metrics ----------------------------------------------------

  lemma {:induction false} NewOnesExactly(ms: seq<Metric>, e: MetricsMap)
    ensures forall m :: m in NewOnes(ms, e) <==> m in ms && !Clashes(m, e)
    ensures multiset(NewOnes(ms, e)) <= multiset(ms)
  {
    if ms != [] {
      var init, m := ms[..|ms| - 1], ms[|ms| - 1];
      NewOnesExactly(init, e);
      assert ms == init + [m];
    }
  }

  lemma {:induction false} NewOnesConcat(a: seq<Metric>, b: seq<Metric>, e: MetricsMap)
    ensures NewOnes(a + b, e) == NewOnes(a, e) + NewOnes(b, e)
  {
    if b == [] {
      assert a + b == a;
    } else {
      assert (a + b)[..|a + b| - 1] == a + b[..|b| - 1];
      NewOnesConcat(a, b[..|b| - 1], e);
    }
  }

  lemma {:induction false} AdmissibleOnesExactly(ms: seq<Metric>)
    ensures forall m :: m in AdmissibleOnes(ms) <==> m in ms && Admissible(m)
    ensures multiset(AdmissibleOnes(ms)) <= multiset(ms)
  {
    if ms != [] {
      var init, m := ms[..|ms| - 1], ms[|ms| - 1];
      AdmissibleOnesExactly(init);
      assert ms == init + [m];
    }
  }

  lemma {:induction false} AdmissibleOnesConcat(a: seq<Metric>, b: seq<Metric>)
    ensures AdmissibleOnes(a + b) == AdmissibleOnes(a) + AdmissibleOnes(b)
  {
    if b == [] {
      assert a + b == a;
    } else {
      assert (a + b)[..|a + b| - 1] == a + b[..|b| - 1];
      AdmissibleOnesConcat(a, b[..|b| - 1]);
    }
  }

  /**
   * A merged list is the admissible primary metrics in order, followed by the
   * admissible secondary metrics that are compatible with every recorded
   * primary metric, whether or not the latter is admissible.
   */
  lemma MergedListExactly(primary: seq<Metric>, secondary: seq<Metric>, recorded: seq<Metric>)
    ensures var e := Recorded(recorded);
      && MergedList(primary, secondary, e) == AdmissibleOnes(primary) + AdmissibleOnes(NewOnes(secondary, e))
      && (forall m :: m in AdmissibleOnes(NewOnes(secondary, e)) <==>
            m in secondary && Admissible(m) && forall x :: x in recorded ==> Compatible(x, m))
  {
    var e := Recorded(recorded);
    AdmissibleOnesConcat(primary, NewOnes(secondary, e));
    AdmissibleOnesExactly(primary);
    AdmissibleOnesExactly(NewOnes(secondary, e));
    NewOnesExactly(secondary, e);
    forall m | m in secondary
      ensures !Clashes(m, e) <==> forall x :: x in recorded ==> Compatible(x, m)
    {
      ClashesExactly(m, recorded);
    }
  }

  lemma {:induction false} VolumesKept(vs: seq<Volume>)
    ensures VolumeMetrics(AdmissibleVolumes(vs)) == AdmissibleOnes(VolumeMetrics(vs))
  {
    if vs != [] {
      var init, v := vs[..|vs| - 1], vs[|vs| - 1];
      VolumesKept(init);
      AdmissibleOnesConcat(VolumeMetrics(init), v.metrics);
      assert AdmissibleVolumes(vs)[..|vs| - 1] == AdmissibleVolumes(init);
    }
  }

  /** A list holds exactly the admissible metrics of `a`, and the admissible metrics of `b` that are new. */
  ghost predicate Holds(l: seq<Metric>, a: seq<Metric>, b: seq<Metric>, e: MetricsMap) {
    multiset(l) == multiset(AdmissibleOnes(a)) + multiset(AdmissibleOnes(NewOnes(b, e)))
  }

  lemma Extend(l: seq<Metric>, a: seq<Metric>, b: seq<Metric>, e: MetricsMap, l': seq<Metric>, a': seq<Metric>, b': seq<Metric>)
    returns (x: seq<Metric>, y: seq<Metric>, z: seq<Metric>)
    requires Holds(l, a, b, e) && Holds(l', a', b', e)
    ensures x == l + l' && y == a + a' && z == b + b' && Holds(x, y, z, e)
  {
    x, y, z := l + l', a + a', b + b';
    AdmissibleOnesConcat(a, a');
    NewOnesConcat(b, b', e);
    AdmissibleOnesConcat(NewOnes(b, e), NewOnes(b', e));
  }

  /** A list of a section that the secondary definition cannot extend. */
  lemma Keep(l: seq<Metric>, a: seq<Metric>, b: seq<Metric>, e: MetricsMap, a': seq<Metric>)
    returns (x: seq<Metric>, y: seq<Metric>)
    requires Holds(l, a, b, e)
    ensures x == l + AdmissibleOnes(a') && y == a + a' && Holds(x, y, b, e)
  {
    x, y := l + AdmissibleOnes(a'), a + a';
    AdmissibleOnesConcat(a, a');
  }

  lemma Merged(l: seq<Metric>, a: seq<Metric>, b: seq<Metric>, e: MetricsMap)
    requires l == MergedList(a, b, e) || (l == a == [] && NewOnes(b, e) == [])
    ensures Holds(l, a, b, e)
  {
    AdmissibleOnesConcat(a, NewOnes(b, e));
  }

  // ----- the merged definition ----------------------------------------------

  /** The visited lists of the secondary definition that are merged. */
  function MergeableSystem(w: Workload): seq<Metric> {
    SystemOf(w).osCommandMetrics + CorosyncOf(w).configMetrics + CorosyncOf(w).osCommandMetrics
  }

  function MergeableHana(w: Workload): seq<Metric> {
    HanaOf(w).globalIniMetrics + HanaOf(w).osCommandMetrics
  }

  function MergeableOthers(w: Workload): seq<Metric> {
    NetweaverOf(w).osCommandMetrics + PacemakerOf(w).osCommandMetrics + CustomOf(w).osCommandMetrics
  }

  function Mergeable(w: Workload): seq<Metric> {
    MergeableSystem(w) + MergeableHana(w) + MergeableOthers(w)
  }

  lemma SystemHolds(p: Workload, s: Workload, m: Workload)
    requires IsMerge(p, s, m) && SafeToMerge(p, s)
    ensures Holds(SystemMetrics(m), SystemMetrics(p), MergeableSystem(s), Existing(p))
  {
    var e := Existing(p);
    var x, y, z := SystemOf(m), SystemOf(p), SystemOf(s);
    var c, d, f := CorosyncOf(m), CorosyncOf(p), CorosyncOf(s);
    Merged(x.osCommandMetrics, y.osCommandMetrics, z.osCommandMetrics, e);
    Merged(c.configMetrics, d.configMetrics, f.configMetrics, e);
    Merged(c.osCommandMetrics, d.osCommandMetrics, f.osCommandMetrics, e);
    JoinSystem(x, y, z, c, d, f, e);
  }

  lemma JoinSystem(x: System, y: System, z: System, c: Corosync, d: Corosync, f: Corosync, e: MetricsMap)
    requires x.systemMetrics == AdmissibleOnes(y.systemMetrics)
    requires Holds(x.osCommandMetrics, y.osCommandMetrics, z.osCommandMetrics, e)
    requires Holds(c.configMetrics, d.configMetrics, f.configMetrics, e)
    requires Holds(c.osCommandMetrics, d.osCommandMetrics, f.osCommandMetrics, e)
    ensures Holds(x.systemMetrics + x.osCommandMetrics + c.configMetrics + c.osCommandMetrics,
                  y.systemMetrics + y.osCommandMetrics + d.configMetrics + d.osCommandMetrics,
                  z.osCommandMetrics + f.configMetrics + f.osCommandMetrics, e)
  {
    var l, a, b := Extend(x.systemMetrics, y.systemMetrics, [], e, x.osCommandMetrics, y.osCommandMetrics, z.osCommandMetrics);
    assert [] + z.osCommandMetrics == z.osCommandMetrics;
    l, a, b := Extend(l, a, b, e, c.configMetrics, d.configMetrics, f.configMetrics);
    l, a, b := Extend(l, a, b, e, c.osCommandMetrics, d.osCommandMetrics, f.osCommandMetrics);
  }

  lemma HanaHolds(p: Workload, s: Workload, m: Workload)
    requires IsMerge(p, s, m) && SafeToMerge(p, s)
    ensures Holds(HanaMetrics(m), HanaMetrics(p), MergeableHana(s), Existing(p))
  {
    var e := Existing(p);
    var x, y, z := HanaOf(m), HanaOf(p), HanaOf(s);
    Merged(x.globalIniMetrics, y.globalIniMetrics, z.globalIniMetrics, e);
    Merged(x.osCommandMetrics, y.osCommandMetrics, z.osCommandMetrics, e);
    VolumesKept(y.diskVolumes);
    var l, a, b := x.globalIniMetrics, y.globalIniMetrics, z.globalIniMetrics;
    l, a := Keep(l, a, b, e, VolumeMetrics(y.diskVolumes));
    l, a := Keep(l, a, b, e, y.backupMetrics);
    l, a := Keep(l, a, b, e, y.haMetrics);
    l, a := Keep(l, a, b, e, y.drMetrics);
    l, a := Keep(l, a, b, e, y.traceMetrics);
    l, a, b := Extend(l, a, b, e, x.osCommandMetrics, y.osCommandMetrics, z.osCommandMetrics);
  }

  lemma ConfigKept(p: Workload, s: Workload, m: Workload)
    requires IsMerge(p, s, m)
    ensures Holds(ConfigMetrics(ConfigOf(m)), ConfigMetrics(ConfigOf(p)), [], Existing(p))
  {
    var e := Existing(p);
    var y := ConfigOf(p);
    var l, a := AdmissibleOnes(y.primitiveMetrics), y.primitiveMetrics;
    l, a := Keep(l, a, [], e, y.rscLocationMetrics);
    l, a := Keep(l, a, [], e, y.rscOptionMetrics);
    l, a := Keep(l, a, [], e, y.hanaOperationMetrics);
    l, a := Keep(l, a, [], e, y.fenceAgentMetrics);
    l, a := Keep(l, a, [], e, y.ascsMetrics);
    l, a := Keep(l, a, [], e, y.opOptionMetrics);
  }

  lemma OthersHold(p: Workload, s: Workload, m: Workload)
    requires IsMerge(p, s, m) && SafeToMerge(p, s)
    ensures Holds(OtherMetrics(m), OtherMetrics(p), MergeableOthers(s), Existing(p))
  {
    var e := Existing(p);
    var x, y, z := PacemakerOf(m), PacemakerOf(p), PacemakerOf(s);
    Merged(NetweaverOf(m).osCommandMetrics, NetweaverOf(p).osCommandMetrics, NetweaverOf(s).osCommandMetrics, e);
    Merged(x.osCommandMetrics, y.osCommandMetrics, z.osCommandMetrics, e);
    Merged(CustomOf(m).osCommandMetrics, CustomOf(p).osCommandMetrics, CustomOf(s).osCommandMetrics, e);
    ConfigKept(p, s, m);
    JoinOthers(NetweaverOf(m), NetweaverOf(p), NetweaverOf(s), ConfigMetrics(ConfigOf(m)), ConfigMetrics(ConfigOf(p)),
               x, y, z, CustomOf(m), CustomOf(p), CustomOf(s), e);
  }

  lemma JoinOthers(n: Netweaver, o: Netweaver, q: Netweaver, config: seq<Metric>, config': seq<Metric>,
                   x: Pacemaker, y: Pacemaker, z: Pacemaker, c: Custom, d: Custom, f: Custom, e: MetricsMap)
    requires Holds(n.osCommandMetrics, o.osCommandMetrics, q.osCommandMetrics, e) && Holds(config, config', [], e)
    requires x.cibBootstrapMetrics == AdmissibleOnes(y.cibBootstrapMetrics)
    requires Holds(x.osCommandMetrics, y.osCommandMetrics, z.osCommandMetrics, e)
    requires Holds(c.osCommandMetrics, d.osCommandMetrics, f.osCommandMetrics, e)
    ensures Holds(n.osCommandMetrics + config + x.cibBootstrapMetrics + x.osCommandMetrics + c.osCommandMetrics,
                  o.osCommandMetrics + config' + y.cibBootstrapMetrics + y.osCommandMetrics + d.osCommandMetrics,
                  q.osCommandMetrics + z.osCommandMetrics + f.osCommandMetrics, e)
  {
    var l, a, b := Extend(n.osCommandMetrics, o.osCommandMetrics, q.osCommandMetrics, e, config, config', []);
    assert q.osCommandMetrics + [] == q.osCommandMetrics;
    l, a := Keep(l, a, b, e, y.cibBootstrapMetrics);
    l, a, b := Extend(l, a, b, e, x.osCommandMetrics, y.osCommandMetrics, z.osCommandMetrics);
    l, a, b := Extend(l, a, b, e, c.osCommandMetrics, d.osCommandMetrics, f.osCommandMetrics);
  }

  /**
   * What the validator visits in a merged definition: the admissible primary
   * metrics and the admissible secondary metrics, of the lists that are merged,
   * that are compatible with every recorded primary metric. Nothing else, and
   * each as often as there.
   */
  lemma MergedContents(p: Workload, s: Workload, m: Workload)
    requires IsMerge(p, s, m) && SafeToMerge(p, s)
    ensures Holds(VisitedMetrics(m), VisitedMetrics(p), Mergeable(s), Existing(p))
  {
    SystemHolds(p, s, m);
    HanaHolds(p, s, m);
    OthersHold(p, s, m);
    var l, a, b := SystemMetrics(m), SystemMetrics(p), MergeableSystem(s);
    l, a, b := Extend(l, a, b, Existing(p), HanaMetrics(m), HanaMetrics(p), MergeableHana(s));
    l, a, b := Extend(l, a, b, Existing(p), OtherMetrics(m), OtherMetrics(p), MergeableOthers(s));
  }

  /** Every metric the validator visits is recorded before merging, so that a new secondary metric cannot clash with it. */
  lemma VisitedIsMapped(p: Workload, x: Metric)
    requires x in VisitedMetrics(p)
    ensures x in MappedMetrics(p)
  {
    if x in HanaMetrics(p) {
      assert x in MappedHana(p);
    } else if x in OtherMetrics(p) {
      if x in ConfigMetrics(ConfigOf(p)) {
        assert x in MappedConfig(ConfigOf(p)) || x in ConfigOf(p).opOptionMetrics;
      }
      assert x in MappedOthers(p);
    }
  }

  lemma NewIsCompatible(p: Workload, s: seq<Metric>)
    ensures forall a, b :: a in VisitedMetrics(p) && b in NewOnes(s, Existing(p)) ==> Compatible(a, b)
  {
    NewOnesExactly(s, Existing(p));
    forall a, b | a in VisitedMetrics(p) && b in NewOnes(s, Existing(p)) ensures Compatible(a, b) {
      VisitedIsMapped(p, a);
      ClashesExactly(b, MappedMetrics(p));
    }
  }

  /** The metrics that a merge takes from the primary definition. */
  ghost function Kept(p: Workload): seq<Metric> {
    AdmissibleOnes(VisitedMetrics(p))
  }

  /** The metrics that a merge takes from the secondary definition. */
  ghost function Added(p: Workload, s: Workload): seq<Metric> {
    AdmissibleOnes(NewOnes(Mergeable(s), Existing(p)))
  }

  lemma AddedFits(p: Workload, s: Workload)
    ensures forall a, b :: a in Kept(p) && b in Added(p, s) ==> Compatible(a, b)
  {
    NewIsCompatible(p, Mergeable(s));
    AdmissibleOnesExactly(VisitedMetrics(p));
    AdmissibleOnesExactly(NewOnes(Mergeable(s), Existing(p)));
  }

  /**
   * A merged definition passes validation exactly when what it takes from each
   * side passes on its own, although only the primary map is consulted while
   * merging and the filtering comes after.
   */
  lemma MergedValidExactly(c: Checks, p: Workload, s: Workload, m: Workload)
    requires IsMerge(p, s, m) && SafeToMerge(p, s)
    ensures c.Failures(VisitedMetrics(m)) == 0 <==> c.Failures(Kept(p)) == 0 && c.Failures(Added(p, s)) == 0
  {
    var l, k, a := VisitedMetrics(m), Kept(p), Added(p, s);
    MergedContents(p, s, m);
    assert multiset(l) == multiset(k + a);
    c.ValidityOrderFree(l, k + a);
    c.NoFailuresExactly(k + a);
    c.NoFailuresExactly(k);
    c.NoFailuresExactly(a);
    AddedFits(p, s);
    PairwiseConcat(k, a);
  }

  lemma PairwiseConcat(k: seq<Metric>, a: seq<Metric>)
    requires forall x, y :: x in k && y in a ==> Compatible(x, y)
    ensures PairwiseCompatible(k + a) <==> PairwiseCompatible(k) && PairwiseCompatible(a)
  {
    if PairwiseCompatible(k + a) {
      forall i, j | 0 <= i < j < |k| ensures Compatible(k[i], k[j]) {
        assert Compatible((k + a)[i], (k + a)[j]);
      }
      forall i, j | 0 <= i < j < |a| ensures Compatible(a[i], a[j]) {
        assert Compatible((k + a)[|k| + i], (k + a)[|k| + j]);
      }
    }
  }

  /** Dropping metrics from a valid list leaves a valid list. */
  lemma FewerIsValid(c: Checks, some: seq<Metric>, all: seq<Metric>)
    requires multiset(some) <= multiset(all) && c.Failures(all) == 0
    ensures c.Failures(some) == 0
  {
    c.NoFailuresExactly(some);
    c.NoFailuresExactly(all);
    BagAndList(some);
    BagAndList(all);
    forall m | m in some ensures m in all {
      assert m in multiset(some) && m in multiset(all);
    }
    assert BagCompatible(multiset(some)) by {
      forall a | multiset(some)[a] >= 2 ensures Compatible(a, a) {
        assert multiset(all)[a] >= 2;
      }
    }
  }

  lemma MergeableIsVisited(s: Workload)
    ensures multiset(Mergeable(s)) <= multiset(VisitedMetrics(s))
  {
    assert multiset(MergeableSystem(s)) <= multiset(SystemMetrics(s));
    assert multiset(MergeableHana(s)) <= multiset(HanaMetrics(s));
    assert multiset(MergeableOthers(s)) <= multiset(OtherMetrics(s));
  }

  /**
   * If two definitions each pass validation for a version, merging them gives a
   * definition that passes it too, without a single failure.
   */
  lemma MergeOfValidIsValid(c: Checks, p: Workload, s: Workload, m: Workload)
    requires IsMerge(p, s, m) && SafeToMerge(p, s)
    requires c.Failures(VisitedMetrics(p)) == 0 && c.Failures(VisitedMetrics(s)) == 0
    ensures c.Failures(VisitedMetrics(m)) == 0
  {
    MergedValidExactly(c, p, s, m);
    AdmissibleOnesExactly(VisitedMetrics(p));
    FewerIsValid(c, Kept(p), VisitedMetrics(p));
    AdmissibleOnesExactly(NewOnes(Mergeable(s), Existing(p)));
    NewOnesExactly(Mergeable(s), Existing(p));
    MergeableIsVisited(s);
    FewerIsValid(c, Added(p, s), VisitedMetrics(s));
  }

  /** Validating a merged definition for the agent's version reports no minimum version, whatever was merged. */
  lemma MergedIsNotTooNew(c: Checks, p: Workload, s: Workload, m: Workload, x: Metric)
    requires IsMerge(p, s, m) && SafeToMerge(p, s) && c.agentVersion == AGENT_VERSION
    requires x in VisitedMetrics(m)
    ensures !c.VersionTooNew(x)
  {
    MergedContents(p, s, m);
    HeldIsAdmissible(VisitedMetrics(m), VisitedMetrics(p), Mergeable(s), Existing(p), x);
  }

  lemma HeldIsAdmissible(l: seq<Metric>, a: seq<Metric>, b: seq<Metric>, e: MetricsMap, x: Metric)
    requires Holds(l, a, b, e) && x in l
    ensures Admissible(x)
  {
    AdmissibleOnesExactly(a);
    AdmissibleOnesExactly(NewOnes(b, e));
    assert x in multiset(l);
    assert x in AdmissibleOnes(a) || x in AdmissibleOnes(NewOnes(b, e));
  }
}

/**
 * Metrics of a collection definition and the relation that decides whether two
 * of them may stand in the same definition (internal/collectiondefinition).
 */
module Metrics {
  import opened Common

  datatype Vendor = UnspecifiedVendor | AllVendors | Rhel | Sles | OtherVendor(code: int)

  datatype MetricInfo = MetricInfo(metricType: string, metricLabel: string, minVersion: string)

  /** An evaluation rule: how many conditions it has, and the regular expressions of its values, if it has values. */
  datatype Rule = Rule(conditions: nat, ifTrue: Option<string>, ifFalse: Option<string>)

  datatype Rules = NoRules | AndRules(rule: Rule) | OrRules(rules: seq<Rule>)

  datatype Metric =
    | VariableMetric(info: MetricInfo, specified: bool)
    | EvalMetric(info: MetricInfo, rules: Rules)
    | OsCommandMetric(info: MetricInfo, vendor: Option<Vendor>, command: string, rules: Rules)

  /** For every metric key, the vendors that have a metric with that key. */
  type MetricsMap = map<string, set<Vendor>>

  /** Type and label, joined by a colon. */
  function Key(m: Metric): string {
    m.info.metricType + ":" + m.info.metricLabel
  }

  /** The vendor a metric is for: all of them, unless an OS command metric names one. */
  function OsVendor(m: Metric): Vendor {
    if m.OsCommandMetric? && m.vendor.Some? then m.vendor.value else AllVendors
  }

  /** Whether a metric would repeat one of the recorded metrics for some vendor. */
  predicate Clashes(m: Metric, seen: MetricsMap) {
    Key(m) in seen && (OsVendor(m) in seen[Key(m)] || AllVendors in seen[Key(m)] || OsVendor(m) == AllVendors)
  }

  /** Records a metric. */
  function Record(seen: MetricsMap, m: Metric): MetricsMap {
    seen[Key(m) := (if Key(m) in seen then seen[Key(m)] else {}) + {OsVendor(m)}]
  }

  /** Two metrics with the same key must be for different vendors, neither of them all vendors. */
  predicate Compatible(a: Metric, b: Metric) {
    Key(a) == Key(b) ==> OsVendor(a) != OsVendor(b) && OsVendor(a) != AllVendors && OsVendor(b) != AllVendors
  }

  ghost function Recorded(ms: seq<Metric>): MetricsMap {
    if ms == [] then map[] else Record(Recorded(ms[..|ms| - 1]), ms[|ms| - 1])
  }

  lemma RecordedSnoc(ms: seq<Metric>, m: Metric)
    ensures Recorded(ms + [m]) == Record(Recorded(ms), m)
  {
    assert (ms + [m])[..|ms|] == ms;
  }

  lemma {:induction false} RecordedExactly(ms: seq<Metric>, k: string, v: Vendor)
    ensures k in Recorded(ms) && v in Recorded(ms)[k] <==> exists m :: m in ms && Key(m) == k && OsVendor(m) == v
    ensures k in Recorded(ms) <==> exists m :: m in ms && Key(m) == k
  {
    if ms != [] {
      var init, last := ms[..|ms| - 1], ms[|ms| - 1];
      RecordedExactly(init, k, v);
      assert ms == init + [last];
    }
  }

  /** The map test is the pairwise relation to every recorded metric. */
  lemma ClashesExactly(m: Metric, ms: seq<Metric>)
    ensures Clashes(m, Recorded(ms)) <==> exists x :: x in ms && !Compatible(x, m)
  {
    RecordedExactly(ms, Key(m), OsVendor(m));
    RecordedExactly(ms, Key(m), AllVendors);
    if x :| x in ms && !Compatible(x, m) {
      RecordedExactly(ms, Key(m), OsVendor(x));
    }
  }

  // ----- definitions free of clashes, whatever the order --------------------

  ghost predicate PairwiseCompatible(ms: seq<Metric>) {
    forall i, j :: 0 <= i < j < |ms| ==> Compatible(ms[i], ms[j])
  }

  ghost predicate BagCompatible(bag: multiset<Metric>) {
    && (forall a, b :: a in bag && b in bag && a != b ==> Compatible(a, b))
    && (forall a :: bag[a] >= 2 ==> Compatible(a, a))
  }

  lemma BagAndList(ms: seq<Metric>)
    ensures PairwiseCompatible(ms) <==> BagCompatible(multiset(ms))
  {
    if PairwiseCompatible(ms) {
      forall a, b | a in multiset(ms) && b in multiset(ms) && a != b ensures Compatible(a, b) {
        var i, j :| 0 <= i < |ms| && ms[i] == a && 0 <= j < |ms| && ms[j] == b;
        assert if i < j then Compatible(ms[i], ms[j]) else Compatible(ms[j], ms[i]);
      }
      forall a | multiset(ms)[a] >= 2 ensures Compatible(a, a) {
        var i, j := TwoPlaces(ms, a);
        assert Compatible(ms[i], ms[j]);
      }
    }
    if BagCompatible(multiset(ms)) {
      forall i, j | 0 <= i < j < |ms| ensures Compatible(ms[i], ms[j]) {
        assert ms[i] in multiset(ms) && ms[j] in multiset(ms);
        if ms[i] == ms[j] {
          TwiceInBag(ms, i, j);
        }
      }
    }
  }

  lemma TwoPlaces(ms: seq<Metric>, a: Metric) returns (i: nat, j: nat)
    requires multiset(ms)[a] >= 2
    ensures i < j < |ms| && ms[i] == a && ms[j] == a
  {
    i :| 0 <= i < |ms| && ms[i] == a;
    assert ms == ms[..i] + [a] + ms[i + 1..];
    if a in ms[..i] {
      j := i;
      i :| 0 <= i < j && ms[i] == a;
    } else {
      assert a in ms[i + 1..];
      var k :| 0 <= k < |ms[i + 1..]| && ms[i + 1..][k] == a;
      j := i + 1 + k;
    }
  }

  /** Freedom from clashes does not depend on the order of the metrics. */
  lemma OrderIrrelevant(ms: seq<Metric>, ns: seq<Metric>)
    requires multiset(ms) == multiset(ns)
    ensures PairwiseCompatible(ms) <==> PairwiseCompatible(ns)
  {
    BagAndList(ms);
    BagAndList(ns);
  }
}

/**
 * When the number of validation failures depends on the order of the metrics
 * (internal/collectiondefinition/validator.go).
 */
module FailureCount {
  import opened Common
  import opened Metrics
  import opened Validation

  /** Three metrics with one key: one for all vendors, two for different vendors. */
  ghost predicate Mixes(c: Checks, all: Metric, u: Metric, w: Metric) {
    && c.Keyed(all) && c.Keyed(u) && c.Keyed(w) && Key(all) == Key(u) == Key(w)
    && OsVendor(all) == AllVendors && OsVendor(u) != AllVendors && OsVendor(w) != AllVendors && OsVendor(u) != OsVendor(w)
  }

  /** Whether some key has a metric for all vendors and metrics for at least two others. */
  ghost predicate Mixed(c: Checks, ms: seq<Metric>) {
    exists all, u, w :: all in ms && u in ms && w in ms && Mixes(c, all, u, w)
  }

  lemma MixedWithin(c: Checks, ms: seq<Metric>, ns: seq<Metric>)
    requires Mixed(c, ms) && forall m :: m in ms ==> m in ns
    ensures Mixed(c, ns)
  {
    var all, u, w :| all in ms && u in ms && w in ms && Mixes(c, all, u, w);
    assert all in ns && u in ns && w in ns;
  }

  // ----- one metric more ----------------------------------------------------

  /** The failures that a metric adds when it comes after metrics that left `seen`. */
  ghost function Cost(c: Checks, seen: MetricsMap, m: Metric): nat {
    c.One(c.VersionTooNew(m)) + c.OwnFailures(m) + c.One(c.Keyed(m) && Clashes(m, seen))
  }

  ghost function Next(c: Checks, seen: MetricsMap, m: Metric): MetricsMap {
    if c.Keyed(m) then Record(seen, m) else seen
  }

  lemma Step(c: Checks, ms: seq<Metric>, m: Metric)
    ensures c.Seen(ms + [m]) == Next(c, c.Seen(ms), m)
    ensures c.Failures(ms + [m]) == c.Failures(ms) + Cost(c, c.Seen(ms), m)
  {
    c.SeenStep(ms, m);
  }

  /** Swapping the two metrics makes a difference: one is for all vendors, and the other is the first for its vendor. */
  ghost predicate Tips(c: Checks, seen: MetricsMap, x: Metric, y: Metric) {
    && c.Keyed(x) && c.Keyed(y) && Key(x) == Key(y) && Key(x) in seen && AllVendors !in seen[Key(x)]
    && ((OsVendor(x) == AllVendors && OsVendor(y) != AllVendors && OsVendor(y) !in seen[Key(x)])
        || (OsVendor(y) == AllVendors && OsVendor(x) != AllVendors && OsVendor(x) !in seen[Key(x)]))
  }

  lemma RecordSwap(seen: MetricsMap, x: Metric, y: Metric)
    ensures Record(Record(seen, x), y) == Record(Record(seen, y), x)
  {
    var a, b := Record(Record(seen, x), y), Record(Record(seen, y), x);
    assert a.Keys == b.Keys;
    forall k | k in a ensures a[k] == b[k] {
    }
  }

  lemma SwapCost(c: Checks, seen: MetricsMap, x: Metric, y: Metric)
    ensures Cost(c, seen, x) + Cost(c, Next(c, seen, x), y) == Cost(c, seen, y) + Cost(c, Next(c, seen, y), x)
       <==> !Tips(c, seen, x, y)
  {
    if c.Keyed(x) && c.Keyed(y) {
      SwapClashes(seen, x, y);
    }
  }

  function Bit(b: bool): nat {
    if b then 1 else 0
  }

  lemma SwapClashes(seen: MetricsMap, x: Metric, y: Metric)
    ensures var k, u, v := Key(x), OsVendor(x), OsVendor(y);
      Bit(Clashes(x, seen)) + Bit(Clashes(y, Record(seen, x))) == Bit(Clashes(y, seen)) + Bit(Clashes(x, Record(seen, y)))
      <==> !(k == Key(y) && k in seen && AllVendors !in seen[k]
             && ((u == AllVendors && v != AllVendors && v !in seen[k]) || (v == AllVendors && u != AllVendors && u !in seen[k])))
  {
  }

  /** Swapping two neighbours. */
  lemma Swap(c: Checks, p: seq<Metric>, x: Metric, y: Metric, t: seq<Metric>)
    ensures c.Seen(p + [x, y] + t) == c.Seen(p + [y, x] + t)
    ensures c.Failures(p + [x, y] + t) == c.Failures(p + [y, x] + t) <==> !Tips(c, c.Seen(p), x, y)
  {
    TwoSteps(c, p, x, y);
    TwoSteps(c, p, y, x);
    RecordSwap(c.Seen(p), x, y);
    SwapCost(c, c.Seen(p), x, y);
    SameTail(c, p + [x, y], p + [y, x], t);
  }

  lemma TwoSteps(c: Checks, p: seq<Metric>, x: Metric, y: Metric)
    ensures var seen := c.Seen(p);
      && c.Seen(p + [x, y]) == Next(c, Next(c, seen, x), y)
      && c.Failures(p + [x, y]) == c.Failures(p) + Cost(c, seen, x) + Cost(c, Next(c, seen, x), y)
  {
    Step(c, p, x);
    Step(c, p + [x], y);
    assert p + [x] + [y] == p + [x, y];
  }

  /** The failures that a list of metrics adds after metrics that left `seen`. */
  ghost function CostAll(c: Checks, seen: MetricsMap, t: seq<Metric>): nat {
    if t == [] then 0 else CostAll(c, seen, t[..|t| - 1]) + Cost(c, NextAll(c, seen, t[..|t| - 1]), t[|t| - 1])
  }

  ghost function NextAll(c: Checks, seen: MetricsMap, t: seq<Metric>): MetricsMap {
    if t == [] then seen else Next(c, NextAll(c, seen, t[..|t| - 1]), t[|t| - 1])
  }

  lemma {:induction false} Append(c: Checks, a: seq<Metric>, t: seq<Metric>)
    ensures c.Seen(a + t) == NextAll(c, c.Seen(a), t)
    ensures c.Failures(a + t) == c.Failures(a) + CostAll(c, c.Seen(a), t)
  {
    if t == [] {
      assert a + t == a;
    } else {
      var init, m := t[..|t| - 1], t[|t| - 1];
      assert t == init + [m];
      Append(c, a, init);
      AppendOne(c, a, init, m, NextAll(c, c.Seen(a), init), CostAll(c, c.Seen(a), init));
    }
  }

  lemma AppendOne(c: Checks, a: seq<Metric>, init: seq<Metric>, m: Metric, seen: MetricsMap, cost: nat)
    requires c.Seen(a + init) == seen && c.Failures(a + init) == c.Failures(a) + cost
    ensures c.Seen(a + (init + [m])) == Next(c, seen, m)
    ensures c.Failures(a + (init + [m])) == c.Failures(a) + cost + Cost(c, seen, m)
  {
    Step(c, a + init, m);
    assert a + init + [m] == a + (init + [m]);
  }

  /** Metrics that follow add the same, whichever way the ones before were ordered. */
  lemma SameTail(c: Checks, a: seq<Metric>, b: seq<Metric>, t: seq<Metric>)
    requires c.Seen(a) == c.Seen(b)
    ensures c.Seen(a + t) == c.Seen(b + t)
    ensures c.Failures(a + t) - c.Failures(a) == c.Failures(b + t) - c.Failures(b)
  {
    Append(c, a, t);
    Append(c, b, t);
  }

  // ----- no mix: the order does not matter ----------------------------------

  lemma {:induction false} KeyedOfExactly(c: Checks, ms: seq<Metric>)
    ensures forall m :: m in c.KeyedOf(ms) <==> m in ms && c.Keyed(m)
  {
    if ms != [] {
      var init := ms[..|ms| - 1];
      KeyedOfExactly(c, init);
      assert ms == init + [ms[|ms| - 1]];
    }
  }

  /** A swap that makes a difference needs a third metric with the same key. */
  lemma TippingIsMixed(c: Checks, p: seq<Metric>, x: Metric, y: Metric)
    requires Tips(c, c.Seen(p), x, y)
    ensures Mixed(c, p + [x, y])
  {
    var ks := c.KeyedOf(p);
    KeyedOfExactly(c, p);
    RecordedExactly(ks, Key(x), AllVendors);
    var w :| w in ks && Key(w) == Key(x);
    RecordedExactly(ks, Key(x), OsVendor(w));
    var all, u := if OsVendor(x) == AllVendors then x else y, if OsVendor(x) == AllVendors then y else x;
    assert Mixes(c, all, u, w);
    assert all in p + [x, y] && u in p + [x, y] && w in p + [x, y];
  }

  /** A metric may as well come last. */
  lemma {:induction false} Move(c: Checks, a: seq<Metric>, m: Metric, b: seq<Metric>)
    requires !Mixed(c, a + [m] + b)
    ensures c.Seen(a + [m] + b) == c.Seen(a + b + [m])
    ensures c.Failures(a + [m] + b) == c.Failures(a + b + [m])
    decreases |b|
  {
    if b == [] {
      assert a + [m] + b == a + b + [m];
    } else {
      var y, rest := b[0], b[1..];
      assert a + [m] + b == a + [m, y] + rest;
      assert a + [y, m] + rest == (a + [y]) + [m] + rest;
      assert (a + [y]) + rest + [m] == a + b + [m];
      if Tips(c, c.Seen(a), m, y) {
        TippingIsMixed(c, a, m, y);
        MixedWithin(c, a + [m, y], a + [m] + b);
      }
      Swap(c, a, m, y, rest);
      if Mixed(c, (a + [y]) + [m] + rest) {
        MixedWithin(c, (a + [y]) + [m] + rest, a + [m] + b);
      }
      Move(c, a + [y], m, rest);
    }
  }

  lemma BagWithout(a: seq<Metric>, m: Metric, b: seq<Metric>)
    ensures multiset(a + b) == multiset(a + [m] + b) - multiset{m}
  {
  }

  lemma Locate(ns: seq<Metric>, m: Metric) returns (a: seq<Metric>, b: seq<Metric>)
    requires m in ns
    ensures ns == a + [m] + b && multiset(a + b) == multiset(ns) - multiset{m}
  {
    var k :| 0 <= k < |ns| && ns[k] == m;
    a, b := ns[..k], ns[k + 1..];
    assert ns == a + [m] + b;
    BagWithout(a, m, b);
  }

  lemma NotMixed(c: Checks, ms: seq<Metric>, ns: seq<Metric>)
    requires !Mixed(c, ms) && multiset(ns) <= multiset(ms)
    ensures !Mixed(c, ns)
  {
    if Mixed(c, ns) {
      forall x | x in ns ensures x in ms {
        assert x in multiset(ns) && x in multiset(ms);
      }
      MixedWithin(c, ns, ms);
    }
  }

  /** Without such a mix, reordering the metrics leaves the number of failures as it is. */
  lemma {:induction false} SameCount(c: Checks, ms: seq<Metric>, ns: seq<Metric>)
    requires multiset(ms) == multiset(ns) && !Mixed(c, ms)
    ensures c.Failures(ms) == c.Failures(ns) && c.Seen(ms) == c.Seen(ns)
    decreases |ms|
  {
    assert |ms| == |multiset(ms)| == |ns|;
    if ms != [] {
      var init, m := ms[..|ms| - 1], ms[|ms| - 1];
      assert ms == init + [m];
      assert multiset(init) == multiset(ms) - multiset{m};
      assert m in multiset(ns);
      var a, b := Locate(ns, m);
      NotMixed(c, ms, ns);
      Move(c, a, m, b);
      NotMixed(c, ms, init);
      SameCount(c, init, a + b);
      SameStep(c, init, a + b, m);
    }
  }

  lemma SameStep(c: Checks, a: seq<Metric>, b: seq<Metric>, m: Metric)
    requires c.Failures(a) == c.Failures(b) && c.Seen(a) == c.Seen(b)
    ensures c.Failures(a + [m]) == c.Failures(b + [m]) && c.Seen(a + [m]) == c.Seen(b + [m])
  {
    Step(c, a, m);
    Step(c, b, m);
  }

  // ----- a mix: two orders with different counts ----------------------------

  lemma WithoutOne(ms: seq<Metric>, m: Metric) returns (rest: seq<Metric>)
    requires m in ms
    ensures multiset(rest) == multiset(ms) - multiset{m}
  {
    var a, b := Locate(ms, m);
    rest := a + b;
  }

  lemma WithoutThree(ms: seq<Metric>, x: Metric, y: Metric, z: Metric) returns (rest: seq<Metric>)
    requires x in ms && y in ms && z in ms && x != y && x != z && y != z
    ensures multiset(rest) + multiset{x, y, z} == multiset(ms)
  {
    var r := WithoutOne(ms, x);
    StillIn(ms, r, x, y);
    StillIn(ms, r, x, z);
    var r' := WithoutOne(r, y);
    StillIn(r, r', y, z);
    rest := WithoutOne(r', z);
    PutBack(multiset(ms), x, y, z);
  }

  lemma StillIn(ms: seq<Metric>, r: seq<Metric>, x: Metric, y: Metric)
    requires multiset(r) == multiset(ms) - multiset{x} && y in ms && x != y
    ensures y in r
  {
    assert y in multiset(ms);
    assert y in multiset(r);
  }

  lemma PutBack(bag: multiset<Metric>, x: Metric, y: Metric, z: Metric)
    requires x in bag && y in bag && z in bag && x != y && x != z && y != z
    ensures bag - multiset{x} - multiset{y} - multiset{z} + multiset{x, y, z} == bag
  {
  }

  lemma BagsOfThree(ms: seq<Metric>, x: Metric, y: Metric, z: Metric, rest: seq<Metric>)
    requires multiset(rest) + multiset{y, x, z} == multiset(ms)
    ensures multiset([x] + [y, z] + rest) == multiset(ms) && multiset([x] + [z, y] + rest) == multiset(ms)
  {
    BagOfThree(x, y, z, rest);
    BagOfThree(x, z, y, rest);
    SameThree(x, y, z);
  }

  lemma SameThree(x: Metric, y: Metric, z: Metric)
    ensures multiset{x, z, y} == multiset{y, x, z} == multiset{x, y, z}
  {
  }

  lemma BagOfThree(x: Metric, y: Metric, z: Metric, rest: seq<Metric>)
    ensures multiset([x] + [y, z] + rest) == multiset(rest) + multiset{x, y, z}
  {
  }

  /** With such a mix, two orders of the same metrics have different numbers of failures. */
  lemma CountsDiffer(c: Checks, ms: seq<Metric>, all: Metric, u: Metric, w: Metric) returns (ns: seq<Metric>, ns': seq<Metric>)
    requires all in ms && u in ms && w in ms && Mixes(c, all, u, w)
    ensures multiset(ns) == multiset(ns') == multiset(ms) && c.Failures(ns) != c.Failures(ns')
  {
    var rest := WithoutThree(ms, all, u, w);
    ns, ns' := [u] + [all, w] + rest, [u] + [w, all] + rest;
    BagsOfThree(ms, u, all, w, rest);
    SwapMixed(c, all, u, w, rest);
  }

  lemma SwapMixed(c: Checks, all: Metric, u: Metric, w: Metric, rest: seq<Metric>)
    requires Mixes(c, all, u, w)
    ensures c.Failures([u] + [all, w] + rest) != c.Failures([u] + [w, all] + rest)
  {
    SeenOne(c, u);
    Swap(c, [u], all, w, rest);
  }

  lemma SeenOne(c: Checks, u: Metric)
    requires c.Keyed(u)
    ensures c.Seen([u]) == map[Key(u) := {OsVendor(u)}]
  {
    Step(c, [], u);
    assert [] + [u] == [u];
    assert {} + {OsVendor(u)} == {OsVendor(u)};
  }

  /**
   * The number of failures is the same for every order of the metrics exactly
   * when no key has a metric for all vendors and metrics for two others.
   */
  lemma CountIsOrderFreeExactly(c: Checks, ms: seq<Metric>)
    ensures (forall ns :: multiset(ns) == multiset(ms) ==> c.Failures(ns) == c.Failures(ms)) <==> !Mixed(c, ms)
  {
    if Mixed(c, ms) {
      var all, u, w :| all in ms && u in ms && w in ms && Mixes(c, all, u, w);
      var ns, ns' := CountsDiffer(c, ms, all, u, w);
      assert c.Failures(ns) != c.Failures(ms) || c.Failures(ns') != c.Failures(ms);
    } else {
      forall ns | multiset(ns) == multiset(ms) ensures c.Failures(ns) == c.Failures(ms) {
        SameCount(c, ms, ns);
      }
    }
  }

  // ----- the count for one key ----------------------------------------------

  function Vendors(ms: seq<Metric>): (vs: seq<Vendor>)
    ensures |vs| == |ms| && forall i :: 0 <= i < |ms| ==> vs[i] == OsVendor(ms[i])
  {
    seq(|ms|, i requires 0 <= i < |ms| => OsVendor(ms[i]))
  }

  /** How many metrics repeat an earlier one, when all have the same key and these vendors. */
  function Repeats(vs: seq<Vendor>): nat {
    if vs == [] then 0
    else
      var init, v := vs[..|vs| - 1], vs[|vs| - 1];
      Repeats(init) + Bit(init != [] && (v in init || AllVendors in init || v == AllVendors))
  }

  /** The vendors recorded under one key. */
  ghost predicate Holds(seen: MetricsMap, k: string, vs: seq<Vendor>) {
    if vs == [] then k !in seen else k in seen && forall v :: v in seen[k] <==> v in vs
  }

  lemma RepeatsSnoc(vs: seq<Vendor>, v: Vendor)
    ensures Repeats(vs + [v]) == Repeats(vs) + Bit(vs != [] && (v in vs || AllVendors in vs || v == AllVendors))
  {
    assert (vs + [v])[..|vs|] == vs;
  }

  lemma WellFormedCost(c: Checks, seen: MetricsMap, m: Metric)
    requires c.WellFormed(m)
    ensures Cost(c, seen, m) == Bit(Clashes(m, seen)) && Next(c, seen, m) == Record(seen, m)
  {
  }

  /** What the failures of one metric list are, for metrics with one key: the repeats among the vendors. */
  ghost predicate Counts(c: Checks, ms: seq<Metric>, k: string, vs: seq<Vendor>) {
    c.Failures(ms) == Repeats(vs) && Holds(c.Seen(ms), k, vs)
  }

  lemma CountsMore(c: Checks, ms: seq<Metric>, m: Metric, vs: seq<Vendor>)
    requires Counts(c, ms, Key(m), vs) && c.WellFormed(m)
    ensures Counts(c, ms + [m], Key(m), vs + [OsVendor(m)])
  {
    Step(c, ms, m);
    WellFormedCost(c, c.Seen(ms), m);
    OneMore(c.Seen(ms), m, vs);
    RepeatsSnoc(vs, OsVendor(m));
  }

  /** For well-formed metrics with one key, the failures are the repeats. */
  lemma {:induction false} OneKeyCount(c: Checks, ms: seq<Metric>, k: string)
    requires forall m :: m in ms ==> c.WellFormed(m) && Key(m) == k
    ensures Counts(c, ms, k, Vendors(ms))
  {
    if ms == [] {
      NothingCounts(c, k);
    } else {
      var init, m := ms[..|ms| - 1], ms[|ms| - 1];
      assert ms == init + [m];
      OneKeyCount(c, init, k);
      CountsMore(c, init, m, Vendors(init));
      assert Vendors(ms) == Vendors(init) + [OsVendor(m)];
    }
  }

  lemma NothingCounts(c: Checks, k: string)
    ensures Counts(c, [], k, [])
  {
  }

  lemma OneMore(seen: MetricsMap, m: Metric, vs: seq<Vendor>)
    requires Holds(seen, Key(m), vs)
    ensures Holds(Record(seen, m), Key(m), vs + [OsVendor(m)])
    ensures Clashes(m, seen) <==> vs != [] && (OsVendor(m) in vs || AllVendors in vs || OsVendor(m) == AllVendors)
  {
  }

  /** Three metrics with one key whose vendors are all of them, RHEL and SLES. */
  function Trio(info: MetricInfo, rule: Rule, vendor: Option<Vendor>): Metric {
    OsCommandMetric(info, vendor, "cmd", AndRules(rule))
  }

  /** The number of failures, unlike validity, does depend on the order. */
  lemma CountDependsOnOrder(c: Checks, info: MetricInfo, rule: Rule)
    requires info.metricType != "" && info.metricLabel != "" && info.minVersion == "" && c.RuleFailures(rule) == 0
    ensures var all, rhel, sles := Trio(info, rule, None), Trio(info, rule, Some(Rhel)), Trio(info, rule, Some(Sles));
      c.Failures([all, rhel, sles]) == 2 && c.Failures([rhel, sles, all]) == 1
  {
    var all, rhel, sles := Trio(info, rule, None), Trio(info, rule, Some(Rhel)), Trio(info, rule, Some(Sles));
    TrioCount(c, all, rhel, sles, [AllVendors, Rhel, Sles]);
    TrioCount(c, rhel, sles, all, [Rhel, Sles, AllVendors]);
    ThreeVendors();
  }

  lemma TrioCount(c: Checks, x: Metric, y: Metric, z: Metric, vs: seq<Vendor>)
    requires c.WellFormed(x) && c.WellFormed(y) && c.WellFormed(z) && Key(x) == Key(y) == Key(z)
    requires vs == [OsVendor(x), OsVendor(y), OsVendor(z)]
    ensures c.Failures([x, y, z]) == Repeats(vs)
  {
    OneKeyCount(c, [x, y, z], Key(x));
    assert Vendors([x, y, z]) == vs;
  }

  lemma ThreeVendors()
    ensures Repeats([AllVendors, Rhel, Sles]) == 2 && Repeats([Rhel, Sles, AllVendors]) == 1
  {
    assert [AllVendors, Rhel, Sles][..2] == [AllVendors, Rhel] && [AllVendors, Rhel][..1] == [AllVendors] && [AllVendors][..0] == [];
    assert [Rhel, Sles, AllVendors][..2] == [Rhel, Sles] && [Rhel, Sles][..1] == [Rhel] && [Rhel][..0] == [];
  }
}

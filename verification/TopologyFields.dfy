/**
 * What the components of a component tree say about themselves: each is built
 * for the site at its top, wherever it was hoisted to.
 */
module TopologyFields {
  import opened Common
  import opened Resources
  import opened Topology
  import opened TopologyContraction

  /** Component by component, the component is the one built for the site at the given path. */
  ghost predicate Built(env: Env, s: Replica, comps: seq<SiteValue>, hs: seq<Path>) {
    && |comps| == |hs|
    && forall k :: 0 <= k < |hs| ==> ValidPath(s, hs[k]) && comps[k].component == env.Build(At(s, hs[k]))
  }

  lemma BuiltConcat(env: Env, s: Replica, a: seq<SiteValue>, b: seq<SiteValue>, ha: seq<Path>, hb: seq<Path>)
    requires Built(env, s, a, ha) && Built(env, s, b, hb)
    ensures Built(env, s, a + b, ha + hb)
  {
  }

  /** Components of a target's subtree, seen from the site above. */
  lemma BuiltBelow(env: Env, s: Replica, i: nat, comps: seq<SiteValue>, hs: seq<Path>)
    requires i < |s.targets| && Built(env, s.targets[i], comps, hs)
    ensures Built(env, s, comps, Below(i, hs))
  {
    forall k | 0 <= k < |hs| ensures ValidPath(s, [i] + hs[k]) && At(s, [i] + hs[k]) == At(s.targets[i], hs[k]) {
      assert ([i] + hs[k])[1..] == hs[k];
    }
  }

  lemma AddedBuilt(env: Env, s: Replica, n: nat)
    requires n < |s.targets|
    ensures Built(env, s, Added(env, s, n), AddedHeads(env, s, n))
  {
    if !env.Joins(s, n) {
      assert [n][1..] == [] && At(s, [n]) == s.targets[n];
    }
  }

  lemma RestStep(env: Env, s: Replica, n: nat)
    requires n < |s.targets|
    ensures var c := s.targets[n];
      RestHeads(env, s, n + 1) == RestHeads(env, s, n) + (AddedHeads(env, s, n) + Below(n, RestHeads(env, c, |c.targets|)))
  {
    StepHeads(env, s, n);
    RootRest(env, s, n + 1);
    var c := s.targets[n];
    var rest := RestHeads(env, s, n) + (AddedHeads(env, s, n) + Below(n, RestHeads(env, c, |c.targets|)));
    assert ([[]] + RestHeads(env, s, n + 1))[1..] == ([[]] + rest)[1..];
    assert ([[]] + rest)[1..] == rest;
  }

  /** What `ComponentsAreBuilt` states of the components below the root, for the first `n` targets. */
  ghost predicate BuiltSoFar(env: Env, s: Replica, n: nat)
    requires n <= |s.targets|
  {
    Built(env, s, FlatAll(env.BuildUpTo(s, n).sites), RestHeads(env, s, n))
  }

  lemma NothingBuilt(env: Env, s: Replica)
    ensures BuiltSoFar(env, s, 0)
  {
    assert PathsUpTo(s, 0)[1..] == [];
  }

  lemma {:induction false} BuiltUpTo(env: Env, s: Replica, n: nat)
    requires n <= |s.targets|
    ensures BuiltSoFar(env, s, n)
    decreases s, n
  {
    if n == 0 {
      NothingBuilt(env, s);
    } else {
      var m, c := n - 1, s.targets[n - 1];
      BuiltUpTo(env, s, m);
      BuiltUpTo(env, c, |c.targets|);
      BuiltStep(env, s, m, c, n);
    }
  }

  lemma BuiltStep(env: Env, s: Replica, n: nat, c: Replica, next: nat)
    requires n < |s.targets| && c == s.targets[n] && next == n + 1
    requires BuiltSoFar(env, s, n) && BuiltSoFar(env, c, |c.targets|)
    ensures BuiltSoFar(env, s, next)
  {
    var rest := FlatAll(env.Build(c).sites);
    NextFlat(env, s, n);
    RestStep(env, s, n);
    AddedBuilt(env, s, n);
    BuiltBelow(env, s, n, rest, RestHeads(env, c, |c.targets|));
    BuiltConcat(env, s, Added(env, s, n), rest, AddedHeads(env, s, n), Below(n, RestHeads(env, c, |c.targets|)));
    BuiltConcat(env, s, FlatAll(env.BuildUpTo(s, n).sites), Added(env, s, n) + rest,
                RestHeads(env, s, n), AddedHeads(env, s, n) + Below(n, RestHeads(env, c, |c.targets|)));
  }

  /** Every component is the one built for the site at its top, as if discovery had started there. */
  lemma ComponentsAreBuilt(env: Env, s: Replica)
    ensures Built(env, s, Flat(SiteValue(env.Build(s), "")), Heads(env, s, Paths(s)))
  {
    BuiltUpTo(env, s, |s.targets|);
    RootRest(env, s, |s.targets|);
    assert At(s, []) == s;
    BuiltConcat(env, s, [SiteValue(env.Build(s), "")], FlatAll(env.Build(s).sites), [[]], RestHeads(env, s, |s.targets|));
  }

  /** How many of the first `n` targets of a site are absorbed directly. */
  ghost function Joined(env: Env, s: Replica, n: nat): nat
    requires n <= |s.targets|
  {
    if n == 0 then 0 else Joined(env, s, n - 1) + if env.Joins(s, n - 1) then 1 else 0
  }

  /** A list repeated. */
  ghost function Times(hosts: seq<string>, n: nat): seq<string> {
    if n == 0 then [] else Times(hosts, n - 1) + hosts
  }

  lemma {:induction false} FieldsUpTo(env: Env, s: Replica, n: nat)
    requires n <= |s.targets|
    ensures var c, group := env.BuildUpTo(s, n), env.GroupOf(s.name);
      && c.sid == env.sid && c.region == env.RegionOf(MarkAll(Dedup(env.discover(s.name))), s.name)
      && (group.None? ==> Joined(env, s, n) == 0)
      && c.haHosts == if group.None? then [] else Times(group.value.instances, Joined(env, s, n))
  {
    if n > 0 {
      FieldsUpTo(env, s, n - 1);
      FieldsOfAttach(env, env.BuildUpTo(s, n - 1), s.name, env.Build(s.targets[n - 1]));
    }
  }

  /** Attaching a target leaves system ID and region, and adds the hosts of the group if the target is absorbed. */
  lemma FieldsOfAttach(env: Env, acc: ComponentValue, name: string, child: ComponentValue)
    ensures var c, group := env.Attach(acc, name, child), env.GroupOf(name);
      && c.sid == acc.sid && c.region == acc.region && (env.JoinsWith(name, child) ==> group.Some?)
      && c.haHosts == if env.JoinsWith(name, child) then acc.haHosts + group.value.instances else acc.haHosts
  {
  }

  /** The hosts of a component are the instances of the load balancer group of its site, once for every target absorbed directly. */
  ghost predicate HostsOf(env: Env, s: Replica, hosts: seq<string>) {
    && (IsGroupOf(env.groups, env.discover(s.name), None) ==> hosts == [] && Joined(env, s, |s.targets|) == 0)
    && (forall g :: IsGroupOf(env.groups, env.discover(s.name), Some(g)) ==> hosts == Times(g.instances, Joined(env, s, |s.targets|)))
  }

  lemma FieldsOfBuilt(env: Env, s: Replica)
    ensures var c := env.Build(s);
      && c.sid == env.sid && c.region == env.RegionOf(MarkAll(Dedup(env.discover(s.name))), s.name)
      && HostsOf(env, s, c.haHosts)
  {
    FieldsUpTo(env, s, |s.targets|);
    GroupExactly(env.groups, env.discover(s.name), None);
    forall g ensures IsGroupOf(env.groups, env.discover(s.name), Some(g)) <==> env.GroupOf(s.name) == Some(g) {
      GroupExactly(env.groups, env.discover(s.name), Some(g));
    }
  }

  /**
   * The system ID, region and hosts of every component: the region is that of the
   * site at its top, and the hosts of absorbed targets are not carried over.
   */
  lemma ComponentFields(env: Env, s: Replica, k: nat)
    requires k < |Heads(env, s, Paths(s))|
    ensures var comps, h := Flat(SiteValue(env.Build(s), "")), Heads(env, s, Paths(s))[k];
      && |comps| == |Heads(env, s, Paths(s))| && ValidPath(s, h)
      && comps[k].component.sid == env.sid
      && comps[k].component.region == env.RegionOf(MarkAll(Dedup(env.discover(At(s, h).name))), At(s, h).name)
      && HostsOf(env, At(s, h), comps[k].component.haHosts)
  {
    ComponentsAreBuilt(env, s);
    var h := Heads(env, s, Paths(s))[k];
    assert ValidPath(s, h);
    FieldsOfBuilt(env, At(s, h));
  }
}

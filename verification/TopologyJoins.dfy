/**
 * Which targets are absorbed, told from what is discovered for the sites alone.
 */
module TopologyJoins {
  import opened Common
  import opened Resources
  import opened Topology
  import opened TopologyContraction

  /** The kind of a resource depends on its URI only. */
  ghost predicate KindsByUri(env: Env, kindOf: string -> Kind) {
    forall name :: OfKind(env.discover(name), kindOf)
  }

  ghost predicate OfKind(rs: seq<ResourceValue>, kindOf: string -> Kind) {
    forall r :: r in rs ==> r.kind == kindOf(r.uri)
  }

  lemma DedupKinds(rs: seq<ResourceValue>, kindOf: string -> Kind)
    requires OfKind(rs, kindOf)
    ensures OfKind(Dedup(rs), kindOf)
  {
    forall r | r in Dedup(rs) ensures r.kind == kindOf(r.uri) {
      var k :| 0 <= k < |Dedup(rs)| && Dedup(rs)[k] == r;
      DedupKind(rs, k);
      var i :| 0 <= i < |rs| && rs[i].uri == r.uri && rs[i].kind == r.kind;
      assert rs[i] in rs;
    }
  }

  /** An entry of a merged list has the kind of some entry with its URI. */
  lemma DedupKind(rs: seq<ResourceValue>, k: nat)
    requires k < |Dedup(rs)|
    ensures exists i :: 0 <= i < |rs| && rs[i].uri == Dedup(rs)[k].uri && rs[i].kind == Dedup(rs)[k].kind
  {
    var out := Dedup(rs);
    DedupUris(rs);
    forall j | 0 <= j < k ensures out[j].uri != out[k].uri {
      assert ValueUri(out[j]) != ValueUri(out[k]);
    }
    IndexOfUnique(out, out[k].uri, k);
    DedupGroups(rs, out[k].uri);
    GroupUnion(rs, out[k].uri);
  }

  lemma OwnKinds(env: Env, kindOf: string -> Kind, name: string)
    requires KindsByUri(env, kindOf)
    ensures OfKind(env.Own(name).resources, kindOf)
  {
    DedupKinds(env.discover(name), kindOf);
  }

  lemma {:induction false} BuildKinds(env: Env, kindOf: string -> Kind, s: Replica, n: nat)
    requires KindsByUri(env, kindOf) && n <= |s.targets|
    ensures OfKind(env.BuildUpTo(s, n).resources, kindOf)
    decreases s, n
  {
    if n == 0 {
      OwnKinds(env, kindOf, s.name);
    } else {
      var c := s.targets[n - 1];
      BuildKinds(env, kindOf, s, n - 1);
      BuildKinds(env, kindOf, c, |c.targets|);
      DedupKinds(env.BuildUpTo(s, n - 1).resources + env.Build(c).resources, kindOf);
    }
  }

  /** Whether an instance discovered for a site is in a group. */
  ghost predicate SiteInGroup(env: Env, g: LbGroup, name: string) {
    exists r :: r in env.discover(name) && r.kind == InstanceKind && r.uri in g.instances
  }

  /** The URIs of the component of a site are those of the sites that land in it. */
  lemma RootUris(env: Env, c: Replica)
    ensures Uris(env.Build(c).resources) == env.MemberUris(c, Paths(c), [])
  {
    Contraction(env, c);
    RootHead(env, c, |c.targets|);
    assert Flat(SiteValue(env.Build(c), ""))[0] == SiteValue(env.Build(c), "");
    assert Heads(env, c, Paths(c))[0] == [];
  }

  /** A group and a list have a common URI that is an instance. */
  ghost predicate MeetsUris(g: LbGroup, uris: set<string>, kindOf: string -> Kind) {
    exists u :: u in uris && kindOf(u) == InstanceKind && u in g.instances
  }

  lemma InGroupByUris(g: LbGroup, rs: seq<ResourceValue>, kindOf: string -> Kind)
    requires OfKind(rs, kindOf)
    ensures InGroup(g, rs) <==> MeetsUris(g, Uris(rs), kindOf)
  {
    if r :| r in rs && IsInstance(r) && r.uri in g.instances {
      assert r.uri in Uris(rs);
    }
    if u :| u in Uris(rs) && kindOf(u) == InstanceKind && u in g.instances {
      var r :| r in rs && r.uri == u;
    }
  }

  lemma SiteByUris(env: Env, kindOf: string -> Kind, g: LbGroup, name: string)
    requires KindsByUri(env, kindOf)
    ensures SiteInGroup(env, g, name) <==> MeetsUris(g, Uris(env.discover(name)), kindOf)
  {
    assert OfKind(env.discover(name), kindOf);
    InGroupByUris(g, env.discover(name), kindOf);
  }

  /** A site that lands in the component of `c` and has an instance in the group. */
  ghost predicate LandsInGroup(env: Env, g: LbGroup, c: Replica, q: Path) {
    ValidPath(c, q) && env.Head(c, q) == [] && SiteInGroup(env, g, At(c, q).name)
  }

  lemma MembersMeet(env: Env, kindOf: string -> Kind, g: LbGroup, c: Replica)
    requires KindsByUri(env, kindOf)
    ensures MeetsUris(g, env.MemberUris(c, Paths(c), []), kindOf) <==> exists q :: LandsInGroup(env, g, c, q)
  {
    var uris := env.MemberUris(c, Paths(c), []);
    if u :| u in uris && kindOf(u) == InstanceKind && u in g.instances {
      var q :| q in Paths(c) && ValidPath(c, q) && env.Head(c, q) == [] && u in env.SiteUris(At(c, q));
      SiteByUris(env, kindOf, g, At(c, q).name);
      assert LandsInGroup(env, g, c, q);
    }
    if q :| LandsInGroup(env, g, c, q) {
      SiteByUris(env, kindOf, g, At(c, q).name);
      var u :| u in Uris(env.discover(At(c, q).name)) && kindOf(u) == InstanceKind && u in g.instances;
      AllInPaths(c, q);
      assert u in env.SiteUris(At(c, q));
      assert u in uris;
    }
  }

  /** A component has an instance in a group exactly when a site that lands in it has one. */
  lemma InGroupExactly(env: Env, kindOf: string -> Kind, g: LbGroup, c: Replica)
    requires KindsByUri(env, kindOf)
    ensures InGroup(g, env.Build(c).resources) <==> exists q :: LandsInGroup(env, g, c, q)
  {
    RootUris(env, c);
    BuildKinds(env, kindOf, c, |c.targets|);
    InGroupByUris(g, env.Build(c).resources, kindOf);
    MembersMeet(env, kindOf, g, c);
  }

  /**
   * A target is absorbed exactly when the site has a load balancer group, that of the
   * first of its instances that is in any, and some site that lands in the target's
   * component has an instance in it.
   */
  lemma JoinsExactly(env: Env, kindOf: string -> Kind, s: Replica, i: nat)
    requires KindsByUri(env, kindOf) && i < |s.targets|
    ensures env.Joins(s, i) <==>
      exists g, q :: IsGroupOf(env.groups, env.discover(s.name), Some(g)) && LandsInGroup(env, g, s.targets[i], q)
  {
    var group := env.GroupOf(s.name);
    forall g ensures IsGroupOf(env.groups, env.discover(s.name), Some(g)) <==> group == Some(g) {
      GroupExactly(env.groups, env.discover(s.name), Some(g));
    }
    if group.Some? {
      InGroupExactly(env, kindOf, group.value, s.targets[i]);
    }
  }
}

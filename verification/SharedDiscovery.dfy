/**
 * The component tree when lookups may return cached resource objects, which then
 * are in several components at once (internal/system/discovery.go,
 * discoverReplicationSite): what the merges through shared objects cannot change.
 */
module SharedDiscovery {
  import opened Common
  import opened Resources
  import opened Topology
  import opened DiscoveryTree
  import opened TopologyContraction
  import opened TopologyJoins
  import opened DiscoveryUpdate
  import opened CloudLookups

  // ----- the objects of a tree, without its resources -----------------------

  ghost function PartsOf(t: Shape): set<object> {
    {t.site, t.comp} + PartsBelow(t.kids)
  }

  ghost function PartsBelow(ts: seq<Shape>): set<object> {
    set i, o | 0 <= i < |ts| && o in PartsOf(ts[i]) :: o
  }

  /** No site and no component occurs twice. */
  ghost predicate Alone(t: Shape) {
    t.site !in PartsBelow(t.kids) && t.comp !in PartsBelow(t.kids) && AloneAll(t.kids)
  }

  ghost predicate AloneAll(ts: seq<Shape>) {
    && (forall i :: 0 <= i < |ts| ==> Alone(ts[i]))
    && (forall i, j :: 0 <= i < j < |ts| ==> PartsOf(ts[i]) !! PartsOf(ts[j]))
  }

  lemma PartsConcat(a: seq<Shape>, b: seq<Shape>)
    ensures PartsBelow(a + b) == PartsBelow(a) + PartsBelow(b)
  {
    assert forall s :: PartsBelow(s) == Union(s, PartsOf);
    UnionConcat(a, b, PartsOf);
  }

  lemma AloneConcat(a: seq<Shape>, b: seq<Shape>)
    requires AloneAll(a) && AloneAll(b) && PartsBelow(a) !! PartsBelow(b)
    ensures AloneAll(a + b)
  {
    forall i, j | 0 <= i < j < |a + b| ensures PartsOf((a + b)[i]) !! PartsOf((a + b)[j]) {
      if i < |a| <= j {
        assert PartsOf(a[i]) <= PartsBelow(a) && PartsOf(b[j - |a|]) <= PartsBelow(b);
      }
    }
  }

  lemma OnePart(t: Shape)
    requires Alone(t)
    ensures PartsBelow([t]) == PartsOf(t) && AloneAll([t])
  {
    assert [t][0] == t;
  }

  // ----- what the tree is ---------------------------------------------------

  /** A site of the tree stands for a value: all is as in the value but what is said about the resources and the region. */
  ghost predicate Stands(t: Shape, v: SiteValue)
    reads PartsOf(t)
    decreases t
  {
    t.site.component == t.comp && t.site.sourceSite == v.source && StandsComp(t.comp, t.kids, v.component)
  }

  ghost predicate StandsComp(comp: Component, kids: seq<Shape>, v: ComponentValue)
    reads {comp} + PartsBelow(kids)
    decreases kids, 1
  {
    && ItemsOf(comp.resources) == Items(v.resources) && DistinctKeys(comp.resources, UriOf)
    && comp.haHosts == v.haHosts && comp.sid == v.sid
    && comp.sites == SitesOf(kids) && StandAll(kids, v.sites)
  }

  ghost predicate StandAll(kids: seq<Shape>, vs: seq<SiteValue>)
    reads PartsBelow(kids)
    decreases kids, 0
  {
    |kids| == |vs| && forall i :: 0 <= i < |kids| ==> Stands(kids[i], vs[i])
  }

  lemma StandConcat(a: seq<Shape>, va: seq<SiteValue>, b: seq<Shape>, vb: seq<SiteValue>)
    requires StandAll(a, va) && StandAll(b, vb)
    ensures StandAll(a + b, va + vb) && SitesOf(a + b) == SitesOf(a) + SitesOf(b)
  {
  }

  /** The components are made of settled resources. */
  ghost predicate Held(comps: set<Component>, settled: set<Resource>)
    reads comps`resources
  {
    forall c, r :: c in comps && r in c.resources ==> r in settled
  }

  lemma CompsConcat(a: seq<Shape>, b: seq<Shape>)
    ensures CompsBelow(a + b) == CompsBelow(a) + CompsBelow(b)
  {
    assert forall s :: CompsBelow(s) == Union(s, Comps);
    UnionConcat(a, b, Comps);
  }

  /** Merging lists through shared objects gives the URIs and kinds of merging the values. */
  lemma ItemsMerged(a: seq<Resource>, b: seq<Resource>, va: seq<ResourceValue>, vb: seq<ResourceValue>)
    requires ItemsOf(a) == Items(va) && ItemsOf(b) == Items(vb)
    ensures ItemsOf(AppendNew([], a + b, UriOf)) == Items(Dedup(va + vb))
    ensures DistinctKeys(AppendNew([], a + b, UriOf), UriOf)
  {
    ItemsOfAppendNew(a + b);
    ItemsOfDedup(va + vb);
    assert ItemsOf(a + b) == Items(va + vb);
    var none: seq<Resource> := [];
    AppendNewDistinct(none, a + b, UriOf);
  }

  // ----- attaching a target -------------------------------------------------

  /** A component under construction and a finished target, apart from each other and from all resources. */
  ghost predicate Ready(comp: Component, kids: seq<Shape>, v: ComponentValue, t: Shape, c: ComponentValue, mine: set<object>)
    reads mine
  {
    && mine == {comp} + PartsBelow(kids) + PartsOf(t)
    && StandsComp(comp, kids, v) && Stands(t, SiteValue(c, ""))
    && AloneAll(kids) && Alone(t) && comp !in PartsBelow(kids) + PartsOf(t) && PartsBelow(kids) !! PartsOf(t)
  }

  ghost predicate Attached(comp: Component, kids: seq<Shape>, mine: set<object>) {
    AloneAll(kids) && comp !in PartsBelow(kids) && PartsBelow(kids) <= mine
  }

  method AddShared(comp: Component, name: string, child: ReplicationSite, ghost kids: seq<Shape>, ghost v: ComponentValue,
                   ghost t: Shape, ghost c: ComponentValue, ghost mine: set<object>)
    requires Ready(comp, kids, v, t, c, mine) && child == t.site
    modifies comp`sites, child`sourceSite
    ensures StandsComp(comp, kids + [t], v.(sites := v.sites + [SiteValue(c, name)]))
    ensures Attached(comp, kids + [t], mine)
  {
    Beside(comp, kids, t, mine);
    NameShared(child, name, kids, v.sites, t, c);
    comp.sites := comp.sites + [child];
  }

  lemma Beside(comp: Component, kids: seq<Shape>, t: Shape, mine: set<object>)
    requires AloneAll(kids) && Alone(t) && PartsBelow(kids) !! PartsOf(t)
    requires mine == {comp} + PartsBelow(kids) + PartsOf(t) && comp !in PartsBelow(kids) + PartsOf(t)
    ensures Attached(comp, kids + [t], mine)
  {
    OnePart(t);
    PartsConcat(kids, [t]);
    AloneConcat(kids, [t]);
  }

  /** Names the source of a finished site, which then stands beside those there are. */
  method NameShared(child: ReplicationSite, name: string, ghost kids: seq<Shape>, ghost vs: seq<SiteValue>,
                    ghost t: Shape, ghost c: ComponentValue)
    requires StandAll(kids, vs) && Stands(t, SiteValue(c, "")) && child == t.site && Alone(t) && PartsBelow(kids) !! PartsOf(t)
    modifies child`sourceSite
    ensures StandAll(kids + [t], vs + [SiteValue(c, name)]) && SitesOf(kids + [t]) == SitesOf(kids) + [child]
  {
    assert StandsComp(t.comp, t.kids, c);
    child.sourceSite := name;
    assert Stands(t, SiteValue(c, name));
    StandConcat(kids, vs, [t], [SiteValue(c, name)]);
  }

  /** The sites below an absorbed target, beside those of the component that absorbs it. */
  lemma Hoisted(comp: Component, kids: seq<Shape>, v: ComponentValue, t: Shape, c: ComponentValue, mine: set<object>)
    requires Ready(comp, kids, v, t, c, mine)
    ensures StandAll(kids + t.kids, v.sites + c.sites) && SitesOf(kids + t.kids) == comp.sites + t.comp.sites
    ensures Attached(comp, kids + t.kids, mine)
  {
    assert Alone(t) && PartsBelow(t.kids) <= PartsOf(t);
    PartsConcat(kids, t.kids);
    AloneConcat(kids, t.kids);
    assert Stands(t, SiteValue(c, "")) && StandsComp(t.comp, t.kids, c);
    StandConcat(kids, v.sites, t.kids, c.sites);
  }

  /** A target in the same load balancer group is absorbed. Its resources may be in use elsewhere. */
  method AbsorbShared(cloud: CloudDiscovery, comp: Component, group: LbGroup, child: ReplicationSite, ghost kids: seq<Shape>,
                      ghost v: ComponentValue, ghost t: Shape, ghost c: ComponentValue, ghost mine: set<object>, ghost comps: set<Component>)
    requires Ready(comp, kids, v, t, c, mine) && child == t.site && cloud.Valid() && mine !! cloud.objects
    requires comp in comps && t.comp in comps && Held(comps, cloud.settled)
    modifies comp`resources, comp`sites, comp`haHosts, cloud.objects
    ensures cloud.Valid() && Held(comps, cloud.settled)
    ensures StandsComp(comp, kids + t.kids,
                       v.(resources := Dedup(v.resources + c.resources), sites := v.sites + c.sites, haHosts := v.haHosts + group.instances))
    ensures Attached(comp, kids + t.kids, mine)
  {
    Hoisted(comp, kids, v, t, c, mine);
    assert Stands(t, SiteValue(c, "")) && StandsComp(t.comp, t.kids, c);
    ghost var below := PartsBelow(kids + t.kids);
    ItemsMerged(comp.resources, child.component.resources, v.resources, c.resources);
    ghost var merged := Dedup(v.resources + c.resources);
    var res := MergeShared(cloud, comp.resources + child.component.resources, kids + t.kids, v.sites + c.sites, below, merged, comps);
    StoreShared(cloud, comp, res, child.component.sites, group.instances, kids + t.kids, v.sites + c.sites, below, comps);
  }

  /** Merging resources leaves the sites of the tree as they are. */
  method MergeShared(cloud: CloudDiscovery, res: seq<Resource>, ghost kids: seq<Shape>, ghost vs: seq<SiteValue>,
                     ghost below: set<object>, ghost merged: seq<ResourceValue>, ghost comps: set<Component>)
    returns (out: seq<Resource>)
    requires cloud.Valid() && below == PartsBelow(kids) && below !! cloud.objects && StandAll(kids, vs)
    requires forall r :: r in res ==> r in cloud.settled
    requires ItemsOf(AppendNew([], res, UriOf)) == Items(merged) && DistinctKeys(AppendNew([], res, UriOf), UriOf)
    requires Held(comps, cloud.settled)
    modifies cloud.objects
    ensures cloud.Valid() && StandAll(kids, vs) && Held(comps, cloud.settled)
    ensures forall r :: r in out ==> r in cloud.settled
    ensures ItemsOf(out) == Items(merged) && DistinctKeys(out, UriOf)
  {
    assert forall o :: o in below ==> allocated(o);
    out := cloud.RemoveDuplicates(res);
    var none: seq<Resource> := [];
    AppendNewKeys(none, res, UriOf);
  }

  /** Stores merged resources, hoisted sites and hosts. */
  method StoreShared(cloud: CloudDiscovery, comp: Component, res: seq<Resource>, sites: seq<ReplicationSite>, hosts: seq<string>,
                     ghost kids: seq<Shape>, ghost vs: seq<SiteValue>, ghost below: set<object>, ghost comps: set<Component>)
    requires Held(comps, cloud.settled)
    requires forall r :: r in res ==> r in cloud.settled
    requires cloud.Valid() && comp !in cloud.objects && comp !in below && below == PartsBelow(kids) && StandAll(kids, vs)
    modifies comp`resources, comp`sites, comp`haHosts
    ensures comp.resources == res && comp.sites == old(comp.sites) + sites && comp.haHosts == old(comp.haHosts) + hosts
    ensures cloud.Valid() && StandAll(kids, vs) && Held(comps, cloud.settled)
  {
    comp.resources := res;
    comp.sites := comp.sites + sites;
    comp.haHosts := comp.haHosts + hosts;
  }

  /** Whether a load balancer group has an instance among the resources of a finished target. */
  method SharesGroup(group: Option<LbGroup>, res: seq<Resource>, ghost vs: seq<ResourceValue>) returns (inLbGroup: bool)
    requires ItemsOf(res) == Items(vs)
    ensures inLbGroup == (group.Some? && InGroup(group.value, vs))
  {
    inLbGroup := false;
    if group.Some? {
      for i := 0 to |res|
        invariant forall k :: 0 <= k < i ==> !(IsInstance(vs[k]) && vs[k].uri in group.value.instances)
      {
        assert ItemsOf(res)[i] == Items(vs)[i];
        if res[i].kind == InstanceKind && res[i].uri in group.value.instances {
          assert vs[i] in vs;
          return true;
        }
      }
    }
  }

  /** The components of a component under construction and of a finished target. */
  ghost function CompsOf(comp: Component, kids: seq<Shape>, t: Shape): set<Component> {
    {comp} + CompsBelow(kids) + Comps(t)
  }

  lemma CompsAttached(comp: Component, kids: seq<Shape>, t: Shape)
    ensures {comp} + CompsBelow(kids + t.kids) <= CompsOf(comp, kids, t)
    ensures {comp} + CompsBelow(kids + [t]) <= CompsOf(comp, kids, t)
  {
    CompsConcat(kids, t.kids);
    CompsConcat(kids, [t]);
    OneComps(t);
  }

  /** Attaches a finished target to the component of its site. */
  method AttachShared(env: Env, cloud: CloudDiscovery, name: string, comp: Component, group: Option<LbGroup>,
                      child: ReplicationSite,
                      ghost kids: seq<Shape>, ghost v: ComponentValue, ghost t: Shape, ghost c: ComponentValue, ghost mine: set<object>,
                      ghost comps: set<Component>)
    returns (ghost kids': seq<Shape>)
    requires group == env.GroupOf(name) && Ready(comp, kids, v, t, c, mine) && child == t.site
    requires cloud.Valid() && mine !! cloud.objects
    requires comps == CompsOf(comp, kids, t) && Held(comps, cloud.settled)
    modifies comp`resources, comp`sites, comp`haHosts, child`sourceSite, cloud.objects
    ensures cloud.Valid() && StandsComp(comp, kids', env.Attach(v, name, c))
    ensures Attached(comp, kids', mine)
    ensures Held(comps, cloud.settled) && {comp} + CompsBelow(kids') <= comps
  {
    assert Stands(t, SiteValue(c, "")) && StandsComp(t.comp, t.kids, c);
    CompsAttached(comp, kids, t);
    var inLbGroup := SharesGroup(group, child.component.resources, c.resources);
    if inLbGroup {
      kids' := kids + t.kids;
      AbsorbShared(cloud, comp, group.value, child, kids, v, t, c, mine, comps);
    } else {
      kids' := kids + [t];
      AddShared(comp, name, child, kids, v, t, c, mine);
    }
  }

  lemma OneComps(t: Shape)
    ensures CompsBelow([t]) == Comps(t)
  {
    assert [t][0] == t;
  }

  // ----- building the tree --------------------------------------------------

  /** A component under construction, out of the objects `mine`, with the finished sites below it. */
  ghost predicate Underway(cloud: CloudDiscovery, comp: Component, kids: seq<Shape>, v: ComponentValue,
                           mine: set<object>, comps: set<Component>)
    reads cloud, cloud.objects, mine, comps
  {
    && cloud.Valid() && cloud !in mine && mine !! cloud.objects
    && mine == {comp} + PartsBelow(kids) && comps == {comp} + CompsBelow(kids)
    && StandsComp(comp, kids, v) && AloneAll(kids) && comp !in PartsBelow(kids)
    && Held(comps, cloud.settled)
  }

  /** A finished site, out of the objects `parts`. */
  ghost predicate Done(cloud: CloudDiscovery, rep: ReplicationSite, t: Shape, v: SiteValue, parts: set<object>,
                       comps: set<Component>)
    reads cloud, cloud.objects, parts, comps
  {
    && cloud.Valid() && cloud !in parts && parts !! cloud.objects
    && rep == t.site && parts == PartsOf(t) && comps == Comps(t)
    && Stands(t, v) && Alone(t)
    && Held(comps, cloud.settled)
  }

  /** All objects that discovery works on. */
  ghost function World(cloud: CloudDiscovery, mine: set<object>): set<object>
    reads cloud
  {
    {cloud} + cloud.objects + mine
  }

  /** The component of a site before any target, and its load balancer group. */
  method DiscoverOwnShared(env: Env, cloud: CloudDiscovery, name: string, ghost world: set<object>)
    returns (comp: Component, group: Option<LbGroup>, ghost mine: set<object>, ghost comps: set<Component>)
    requires cloud.Valid() && KindsByUri(env, cloud.kindOf) && world == World(cloud, {})
    modifies world
    ensures Underway(cloud, comp, [], env.Own(name), mine, comps) && group == env.GroupOf(name) && fresh(mine)
    ensures old(cloud.settled) <= cloud.settled && forall o :: o in World(cloud, mine) ==> o in world || fresh(o)
  {
    var res, region;
    res, region, group := FindShared(env, cloud, name);
    comp, mine, comps := NewShared(env, cloud, name, res, region);
  }

  /** The resources of a site as its component lists them. */
  ghost predicate OwnList(env: Env, cloud: CloudDiscovery, name: string, res: seq<Resource>)
    reads cloud`settled
  {
    ItemsOf(res) == Items(env.Own(name).resources) && DistinctKeys(res, UriOf) && Elements(res) <= cloud.settled
  }

  /** The resources of a site without duplicates and with the database role, its region and its load balancer group. */
  method FindShared(env: Env, cloud: CloudDiscovery, name: string)
    returns (res: seq<Resource>, region: string, group: Option<LbGroup>)
    requires cloud.Valid() && KindsByUri(env, cloud.kindOf)
    modifies cloud, cloud.objects
    ensures cloud.Valid() && OwnList(env, cloud, name, res) && group == env.GroupOf(name)
    ensures old(cloud.settled) <= cloud.settled && fresh(cloud.objects - old(cloud.objects))
  {
    var all := cloud.DiscoverComputeResources(env, name);
    group := GroupShared(env, name, all);
    OwnItems(env, name, all);
    res, region := cloud.OwnResources(env, all, name);
  }

  method GroupShared(env: Env, name: string, all: seq<Resource>) returns (group: Option<LbGroup>)
    requires ItemsOf(all) == Items(env.discover(name))
    ensures group == env.GroupOf(name)
  {
    group := SiteGroup(all, env.groups);
    GroupByItems(env.groups, Views(all), env.discover(name));
  }

  lemma OwnItems(env: Env, name: string, all: seq<Resource>)
    requires ItemsOf(all) == Items(env.discover(name))
    ensures var out := AppendNew([], all, UriOf); ItemsOf(out) == Items(env.Own(name).resources) && DistinctKeys(out, UriOf)
  {
    ItemsOfAppendNew(all);
    ItemsOfDedup(env.discover(name));
    var none: seq<Resource> := [];
    AppendNewDistinct(none, all, UriOf);
    assert Items(MarkAll(Dedup(env.discover(name)))) == Items(Dedup(env.discover(name)));
  }

  method NewShared(env: Env, cloud: CloudDiscovery, name: string, res: seq<Resource>, region: string)
    returns (comp: Component, ghost mine: set<object>, ghost comps: set<Component>)
    requires cloud.Valid() && OwnList(env, cloud, name, res)
    ensures Underway(cloud, comp, [], env.Own(name), mine, comps) && fresh(mine)
  {
    assert forall r :: r in res ==> r in Elements(res);
    comp := new Component(res, env.sid);
    comp.region := region;
    mine, comps := {comp}, {comp};
    assert Held(comps, cloud.settled);
    assert StandsComp(comp, [], env.Own(name));
  }

  /** Attaches a finished target, out of objects of its own, to the component of its site. */
  method JoinShared(env: Env, cloud: CloudDiscovery, name: string, comp: Component, group: Option<LbGroup>, child: ReplicationSite,
                    ghost kids: seq<Shape>, ghost v: ComponentValue, ghost mine: set<object>, ghost comps: set<Component>,
                    ghost t: Shape, ghost c: ComponentValue, ghost parts: set<object>, ghost below: set<Component>)
    returns (ghost kids': seq<Shape>, ghost mine': set<object>, ghost comps': set<Component>)
    requires group == env.GroupOf(name) && Underway(cloud, comp, kids, v, mine, comps)
    requires Done(cloud, child, t, SiteValue(c, ""), parts, below) && mine !! parts
    modifies mine, parts, cloud.objects
    ensures Underway(cloud, comp, kids', env.Attach(v, name, c), mine', comps') && mine' <= mine + parts
  {
    MayJoin(cloud, comp, kids, v, mine, comps, child, t, c, parts, below);
    kids' := AttachShared(env, cloud, name, comp, group, child, kids, v, t, c, mine + parts, comps + below);
    mine', comps' := {comp} + PartsBelow(kids'), {comp} + CompsBelow(kids');
    StillUnderway(cloud, comp, kids', env.Attach(v, name, c), mine + parts, comps + below);
  }

  lemma MayJoin(cloud: CloudDiscovery, comp: Component, kids: seq<Shape>, v: ComponentValue, mine: set<object>,
                comps: set<Component>,
                child: ReplicationSite, t: Shape, c: ComponentValue, parts: set<object>, below: set<Component>)
    requires Underway(cloud, comp, kids, v, mine, comps) && Done(cloud, child, t, SiteValue(c, ""), parts, below) && mine !! parts
    ensures Ready(comp, kids, v, t, c, mine + parts) && (mine + parts) !! cloud.objects && cloud !in mine + parts
    ensures comps + below == CompsOf(comp, kids, t) && Held(comps + below, cloud.settled)
  {
  }

  lemma StillUnderway(cloud: CloudDiscovery, comp: Component, kids: seq<Shape>, v: ComponentValue, all: set<object>,
                      comps: set<Component>)
    requires cloud.Valid() && cloud !in all && all !! cloud.objects && comp in all
    requires StandsComp(comp, kids, v) && Attached(comp, kids, all)
    requires Held(comps, cloud.settled) && {comp} + CompsBelow(kids) <= comps
    ensures Underway(cloud, comp, kids, v, {comp} + PartsBelow(kids), {comp} + CompsBelow(kids))
  {
  }

  /** Discovers a target while the component of its site is under construction. */
  method FindTarget(env: Env, cloud: CloudDiscovery, s: Replica, target: Replica, comp: Component,
                    ghost kids: seq<Shape>, ghost v: ComponentValue, ghost mine: set<object>, ghost comps: set<Component>)
    returns (child: ReplicationSite, ghost t: Shape, ghost parts: set<object>, ghost below: set<Component>)
    requires target in s.targets && KindsByUri(env, cloud.kindOf) && Underway(cloud, comp, kids, v, mine, comps)
    modifies World(cloud, {})
    ensures Underway(cloud, comp, kids, v, mine, comps)
    ensures Done(cloud, child, t, SiteValue(env.Build(target), ""), parts, below) && fresh(parts) && mine !! parts
    ensures old(cloud.settled) <= cloud.settled && fresh(cloud.objects - old(cloud.objects))
    decreases s, 0
  {
    assert forall o :: o in mine ==> allocated(o);
    child, t, parts, below := DiscoverReplicationSite(env, cloud, target, World(cloud, {}));
    assert forall o :: o in cloud.objects ==> o in World(cloud, parts);
  }

  /** Discovers the next target of a site and attaches it. */
  method NextShared(env: Env, cloud: CloudDiscovery, s: Replica, i: nat, comp: Component, group: Option<LbGroup>,
                    ghost kids: seq<Shape>, ghost mine: set<object>, ghost comps: set<Component>, ghost world: set<object>)
    returns (ghost kids': seq<Shape>, ghost mine': set<object>, ghost comps': set<Component>)
    requires i < |s.targets| && group == env.GroupOf(s.name) && KindsByUri(env, cloud.kindOf)
    requires Underway(cloud, comp, kids, env.BuildUpTo(s, i), mine, comps) && world == World(cloud, mine)
    modifies world
    ensures Underway(cloud, comp, kids', env.BuildUpTo(s, i + 1), mine', comps')
    ensures forall o :: o in mine' ==> o in mine || fresh(o)
    ensures old(cloud.settled) <= cloud.settled && forall o :: o in World(cloud, mine') ==> o in world || fresh(o)
    decreases s, 1
  {
    ghost var v, c := env.BuildUpTo(s, i), env.Build(s.targets[i]);
    var child, t, parts, below := FindTarget(env, cloud, s, s.targets[i], comp, kids, v, mine, comps);
    kids', mine', comps' := JoinShared(env, cloud, s.name, comp, group, child, kids, v, mine, comps, t, c, parts, below);
    assert env.BuildUpTo(s, i + 1) == env.Attach(v, s.name, c);
  }

  /**
   * Builds the component tree of a replica tree out of new components and sites,
   * whatever the cache returns. Its structure, its URIs and kinds, the sources and
   * hosts are those of the specification, and every instance carries the database role.
   */
  method DiscoverReplicationSite(env: Env, cloud: CloudDiscovery, s: Replica, ghost world: set<object>)
    returns (rep: ReplicationSite, ghost t: Shape, ghost parts: set<object>, ghost comps: set<Component>)
    requires cloud.Valid() && KindsByUri(env, cloud.kindOf) && world == World(cloud, {})
    modifies world
    ensures Done(cloud, rep, t, SiteValue(env.Build(s), ""), parts, comps) && fresh(parts)
    ensures old(cloud.settled) <= cloud.settled && forall o :: o in World(cloud, parts) ==> o in world || fresh(o)
    decreases s, 3
  {
    var comp, group, mine, all := DiscoverOwnShared(env, cloud, s.name, world);
    ghost var kids;
    kids, mine, all := AttachAllShared(env, cloud, s, comp, group, mine, all, World(cloud, mine));
    assert fresh(mine);
    rep, t, parts, comps := FinishShared(cloud, comp, kids, env.Build(s), mine, all);
  }

  /** Discovers and attaches all targets of a site, in order. */
  method AttachAllShared(env: Env, cloud: CloudDiscovery, s: Replica, comp: Component, group: Option<LbGroup>,
                         ghost mine0: set<object>, ghost all0: set<Component>, ghost world: set<object>)
    returns (ghost kids: seq<Shape>, ghost mine: set<object>, ghost all: set<Component>)
    requires group == env.GroupOf(s.name) && KindsByUri(env, cloud.kindOf)
    requires Underway(cloud, comp, [], env.Own(s.name), mine0, all0) && world == World(cloud, mine0)
    modifies world
    ensures Underway(cloud, comp, kids, env.Build(s), mine, all) && forall o :: o in mine ==> o in mine0 || fresh(o)
    ensures old(cloud.settled) <= cloud.settled && forall o :: o in World(cloud, mine) ==> o in world || fresh(o)
    decreases s, 2
  {
    kids, mine, all := [], mine0, all0;
    for i := 0 to |s.targets|
      invariant Underway(cloud, comp, kids, env.BuildUpTo(s, i), mine, all)
      invariant forall o :: o in mine ==> o in mine0 || fresh(o)
      invariant old(cloud.settled) <= cloud.settled && forall o :: o in World(cloud, mine) ==> o in world || fresh(o)
    {
      kids, mine, all := NextShared(env, cloud, s, i, comp, group, kids, mine, all, World(cloud, mine));
    }
  }

  /** Wraps a finished component into a replication site. */
  method FinishShared(cloud: CloudDiscovery, comp: Component, ghost kids: seq<Shape>, ghost v: ComponentValue,
                      ghost mine: set<object>, ghost all: set<Component>)
    returns (rep: ReplicationSite, ghost t: Shape, ghost parts: set<object>, ghost comps: set<Component>)
    requires Underway(cloud, comp, kids, v, mine, all)
    ensures Done(cloud, rep, t, SiteValue(v, ""), parts, comps)
    ensures forall o :: o in parts ==> o in mine || fresh(o)
  {
    assert forall o :: o in mine ==> allocated(o);
    rep := new ReplicationSite(comp);
    t := Shape(rep, comp, [], [], kids);
    parts, comps := mine + {rep}, all;
    assert StandsComp(comp, kids, v);
  }

  // ----- what can be said about the finished tree ---------------------------

  /** The components of a tree, root first. */
  ghost function FlatTree(t: Shape): seq<Shape>
    decreases t
  {
    [t] + FlatTrees(t.kids)
  }

  ghost function FlatTrees(ts: seq<Shape>): seq<Shape>
    decreases ts
  {
    if ts == [] then [] else FlatTrees(ts[..|ts| - 1]) + FlatTree(ts[|ts| - 1])
  }

  /** Component by component, the URIs, the kinds and the source are those of the values. */
  ghost predicate Match(ts: seq<Shape>, vs: seq<SiteValue>)
    reads set t | t in ts :: t.site, set t | t in ts :: t.comp
  {
    |ts| == |vs| && forall k :: 0 <= k < |ts| ==>
      ts[k].site.sourceSite == vs[k].source && ItemsOf(ts[k].comp.resources) == Items(vs[k].component.resources)
  }

  lemma {:induction false} TreeMatches(t: Shape, v: SiteValue)
    requires Stands(t, v)
    ensures Match(FlatTree(t), Flat(v))
    decreases t, 1
  {
    assert StandsComp(t.comp, t.kids, v.component);
    TreesMatch(t.kids, v.component.sites);
  }

  lemma {:induction false} TreesMatch(ts: seq<Shape>, vs: seq<SiteValue>)
    requires StandAll(ts, vs)
    ensures Match(FlatTrees(ts), FlatAll(vs))
    decreases ts, 0
  {
    if ts != [] {
      var n := |ts| - 1;
      TreesMatch(ts[..n], vs[..n]);
      TreeMatches(ts[n], vs[n]);
    }
  }

  lemma UrisOfItems(res: seq<Resource>, vs: seq<ResourceValue>)
    requires ItemsOf(res) == Items(vs)
    ensures (set r | r in res :: r.uri) == Uris(vs)
  {
    forall u | u in set r | r in res :: r.uri ensures u in Uris(vs) {
      var r :| r in res && r.uri == u;
      var i :| 0 <= i < |res| && res[i] == r;
      assert Items(vs)[i].uri == u && vs[i] in vs;
    }
    forall u | u in Uris(vs) ensures u in set r | r in res :: r.uri {
      var v :| v in vs && v.uri == u;
      var i :| 0 <= i < |vs| && vs[i] == v;
      assert ItemsOf(res)[i].uri == u && res[i] in res;
    }
  }

  /**
   * The contraction on the heap, whatever objects the lookups returned: the
   * components are the sites that are not absorbed, each with the URIs of the sites
   * that land in it and with its source.
   */
  lemma SharedContraction(env: Env, s: Replica, t: Shape)
    requires Stands(t, SiteValue(env.Build(s), ""))
    ensures var ts, hs := FlatTree(t), Heads(env, s, Paths(s));
      |ts| == |hs| && forall k :: 0 <= k < |ts| ==>
        && ValidPath(s, hs[k]) && ts[k].site.sourceSite == env.SourceName(s, hs[k])
        && (set r | r in ts[k].comp.resources :: r.uri) == env.MemberUris(s, Paths(s), hs[k])
  {
    var v := SiteValue(env.Build(s), "");
    Contraction(env, s);
    TreeMatches(t, v);
    forall k | 0 <= k < |FlatTree(t)|
      ensures (set r | r in FlatTree(t)[k].comp.resources :: r.uri) == Uris(Flat(v)[k].component.resources)
    {
      UrisOfItems(FlatTree(t)[k].comp.resources, Flat(v)[k].component.resources);
    }
  }

  /** Every instance in every component carries the database role. */
  lemma SharedDatabases(cloud: CloudDiscovery, rep: ReplicationSite, t: Shape, v: SiteValue, parts: set<object>,
                        comps: set<Component>)
    requires Done(cloud, rep, t, v, parts, comps)
    ensures forall c, r :: c in Comps(t) && r in c.resources && r.kind == InstanceKind ==> IsDatabase(r)
  {
  }

  lemma {:induction false} AloneApart(t: Shape)
    requires Alone(t)
    ensures TreeApart(t.comp, t.kids)
    decreases t
  {
    CompsAreParts(t);
    CompsBelowAreParts(t.kids);
    forall i | 0 <= i < |t.kids| ensures TreeApart(t.kids[i].comp, t.kids[i].kids) {
      AloneApart(t.kids[i]);
    }
    forall i, j | 0 <= i < j < |t.kids| ensures Comps(t.kids[i]) !! Comps(t.kids[j]) {
      CompsAreParts(t.kids[i]);
      CompsAreParts(t.kids[j]);
      assert PartsOf(t.kids[i]) !! PartsOf(t.kids[j]);
    }
  }

  lemma {:induction false} CompsAreParts(t: Shape)
    ensures Comps(t) <= PartsOf(t)
    decreases t
  {
    forall c | c in CompsBelow(t.kids) ensures c in PartsBelow(t.kids) {
      var i :| 0 <= i < |t.kids| && c in Comps(t.kids[i]);
      CompsAreParts(t.kids[i]);
    }
  }

  lemma CompsBelowAreParts(ts: seq<Shape>)
    ensures CompsBelow(ts) <= PartsBelow(ts)
  {
    forall c | c in CompsBelow(ts) ensures c in PartsBelow(ts) {
      var i :| 0 <= i < |ts| && c in Comps(ts[i]);
      CompsAreParts(ts[i]);
    }
  }

  lemma {:induction false} StandingIsLinked(t: Shape, v: SiteValue)
    requires Stands(t, v)
    ensures LinkedSite(t) && forall c :: c in Comps(t) ==> DistinctKeys(c.resources, UriOf)
    decreases t
  {
    assert StandsComp(t.comp, t.kids, v.component);
    assert StandAll(t.kids, v.component.sites);
    forall i | 0 <= i < |t.kids|
      ensures LinkedSite(t.kids[i]) && forall c :: c in Comps(t.kids[i]) ==> DistinctKeys(c.resources, UriOf)
    {
      StandingIsLinked(t.kids[i], v.component.sites[i]);
    }
  }

  /** The update for the host, on a tree whose components may share resources with each other and with the host. */
  method AddHostShared(cloud: CloudDiscovery, h: Host, rep: ReplicationSite, host: seq<Resource>, ghost t: Shape,
                       ghost v: SiteValue,
                       ghost parts: set<object>, ghost comps: set<Component>, ghost was: map<Component, seq<Resource>>)
    requires Done(cloud, rep, t, v, parts, comps) && Elements(host) <= cloud.found
    requires was.Keys == comps && forall c :: c in comps ==> was[c] == c.resources
    modifies comps`resources, cloud.objects
    ensures forall c :: c in comps ==> c.resources == NewList(h, was, h.Chosen(was, t.comp, t.kids), c, host)
    ensures forall c :: c in comps && c !in h.Chosen(was, t.comp, t.kids) ==> c.resources == was[c]
    ensures forall c :: c in h.Chosen(was, t.comp, t.kids) ==>
      && c in comps && Grows(was[c], host, c.resources)
      && AllUnite(Views(c.resources), old(Views(was[c] + host)))
      && AllKeepRecords(Views(c.resources), old(Views(was[c] + host)))
  {
    StandingIsLinked(t, v);
    AloneApart(t);
    AddHostToTree(h, rep.component, host, t.kids, was, comps, SitesBelow(t.kids), cloud.found, cloud.found, PropsOf(cloud.found));
  }
}

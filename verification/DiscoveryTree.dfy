/**
 * The component tree on the heap: how discovery builds it from a replica tree
 * (internal/system/discovery.go, discoverReplicationSite).
 */
module DiscoveryTree {
  import opened Common
  import opened Resources
  import opened Topology

  class ReplicationSite {
    var component: Component
    var sourceSite: string

    constructor (component: Component)
      ensures this.component == component && sourceSite == ""
    {
      this.component, sourceSite := component, "";
    }
  }

  class Component {
    var resources: seq<Resource>
    var region: string
    var haHosts: seq<string>
    var sid: string
    var sites: seq<ReplicationSite>

    constructor (resources: seq<Resource>, sid: string)
      ensures this.resources == resources && this.sid == sid && region == "" && haHosts == [] && sites == []
    {
      this.resources, this.sid := resources, sid;
      region, haHosts, sites := "", [], [];
    }
  }

  /** The objects of a component tree, as a finite value. */
  datatype Shape = Shape(
    site: ReplicationSite, comp: Component, resources: seq<Resource>, props: seq<InstanceProperties?>, kids: seq<Shape>)

  /** The resource objects of the top component of a shape. */
  ghost function Stock(t: Shape): set<object> {
    var resources: set<object> := Elements(t.resources);
    resources + Present(t.props)
  }

  ghost function Present(props: seq<InstanceProperties?>): set<InstanceProperties> {
    set p: InstanceProperties | p in props
  }

  ghost function Top(t: Shape): set<object> {
    {t.site, t.comp} + Stock(t)
  }

  ghost function Foot(t: Shape): set<object> {
    Top(t) + FootAll(t.kids)
  }

  ghost function FootAll(ts: seq<Shape>): set<object> {
    set i, o | 0 <= i < |ts| && o in Foot(ts[i]) :: o
  }

  ghost predicate Unshared(props: seq<InstanceProperties?>) {
    forall i, j :: 0 <= i < j < |props| && props[i] != null ==> props[i] != props[j]
  }

  /** No object occurs twice in a shape. */
  ghost predicate Apart(t: Shape) {
    && t.site as object != t.comp
    && Unshared(t.props)
    && DistinctKeys(t.resources, UriOf)
    && Top(t) !! FootAll(t.kids)
    && ApartAll(t.kids)
  }

  ghost predicate ApartAll(ts: seq<Shape>) {
    && (forall i :: 0 <= i < |ts| ==> Apart(ts[i]))
    && (forall i, j :: 0 <= i < j < |ts| ==> Foot(ts[i]) !! Foot(ts[j]))
  }

  ghost function SitesOf(ts: seq<Shape>): seq<ReplicationSite> {
    seq(|ts|, i requires 0 <= i < |ts| => ts[i].site)
  }

  /** The heap has the objects of a shape linked as the shape says. */
  ghost predicate Owned(t: Shape)
    reads Foot(t)
  {
    && t.site.component == t.comp
    && t.comp.resources == t.resources
    && |t.props| == |t.resources|
    && (forall i :: 0 <= i < |t.resources| ==> t.resources[i].props == t.props[i])
    && t.comp.sites == SitesOf(t.kids)
    && OwnedAll(t.kids)
  }

  ghost predicate OwnedAll(ts: seq<Shape>)
    reads FootAll(ts)
  {
    forall i :: 0 <= i < |ts| ==> Owned(ts[i])
  }

  ghost function ViewOf(t: Shape): SiteValue
    requires Owned(t)
    reads Foot(t)
  {
    assert forall r :: r in t.resources && r.props != null ==> r.props in t.props;
    SiteValue(
      ComponentValue(Views(t.resources), t.comp.region, t.comp.haHosts, t.comp.sid, ViewAll(t.kids)),
      t.site.sourceSite)
  }

  ghost function ViewAll(ts: seq<Shape>): seq<SiteValue>
    requires OwnedAll(ts)
    reads FootAll(ts)
  {
    seq(|ts|, i requires 0 <= i < |ts| && OwnedAll(ts) reads FootAll(ts) => ViewOf(ts[i]))
  }

  lemma FootAllConcat(a: seq<Shape>, b: seq<Shape>)
    ensures FootAll(a + b) == FootAll(a) + FootAll(b)
  {
    assert forall s :: FootAll(s) == Union(s, Foot);
    UnionConcat(a, b, Foot);
  }

  /** Two forests side by side. */
  lemma ForestConcat(a: seq<Shape>, b: seq<Shape>)
    requires OwnedAll(a) && OwnedAll(b)
    ensures OwnedAll(a + b) && ViewAll(a + b) == ViewAll(a) + ViewAll(b) && SitesOf(a + b) == SitesOf(a) + SitesOf(b)
  {
  }

  lemma ApartConcat(a: seq<Shape>, b: seq<Shape>)
    requires ApartAll(a) && ApartAll(b) && FootAll(a) !! FootAll(b)
    ensures ApartAll(a + b)
  {
    forall i, j | 0 <= i < j < |a + b| ensures Foot((a + b)[i]) !! Foot((a + b)[j]) {
      if i < |a| <= j {
        assert Foot(a[i]) <= FootAll(a) && Foot(b[j - |a|]) <= FootAll(b);
      }
    }
  }

  // ----- resources ----------------------------------------------------------

  /** No two entries of a list are the same object or share a properties object. */
  ghost predicate Separate(res: seq<Resource>)
    reads Elements(res)
  {
    forall i, j :: 0 <= i < j < |res| ==> res[i] != res[j] && (res[i].props != null ==> res[i].props != res[j].props)
  }

  ghost function Objects(res: seq<Resource>): set<object>
    reads Elements(res)
  {
    Elements(res) + PropsOf(Elements(res))
  }

  /** The lookup of the resources of a site: new objects with the discovered values. */
  method Discover(env: Env, name: string) returns (res: seq<Resource>)
    ensures Views(res) == env.discover(name) && Separate(res) && fresh(Objects(res))
  {
    var vs := env.discover(name);
    res := [];
    for i := 0 to |vs|
      invariant |res| == i && Separate(res)
      invariant forall k :: 0 <= k < i ==> View(res[k]) == vs[k] && fresh(res[k]) && (res[k].props != null ==> fresh(res[k].props))
    {
      var r := new Resource(vs[i]);
      res := res + [r];
    }
  }

  /** The objects of a list of resources are among the given ones. */
  ghost predicate Within(res: seq<Resource>, own: set<object>)
    reads Elements(res)
  {
    forall r :: r in res ==> r in own && (r.props != null ==> r.props in own)
  }

  /** Removing duplicates from a list without sharing. */
  method Clean(res: seq<Resource>, ghost own: set<object>) returns (out: seq<Resource>)
    requires Separate(res) && Within(res, own)
    modifies own
    ensures Views(out) == Dedup(old(Views(res))) && DistinctKeys(out, UriOf) && Separate(out) && Within(out, own)
  {
    ghost var was := Take(Elements(res));
    was.ContributionsWithoutSharing(res);
    assert was.Views(res) == Views(res);
    out := RemoveDuplicates(res);
    Cleaned(was, res, out);
  }

  lemma Cleaned(was: Snapshot, res: seq<Resource>, out: seq<Resource>)
    requires was.Covers(res) && out == AppendNew([], res, UriOf)
    requires Stored(was, res, out) && Coherent(Elements(out))
    ensures DistinctKeys(out, UriOf) && Separate(out)
    ensures forall r :: r in out && r.props != null ==> exists s :: s in res && was.props[s] == r.props
  {
    AppendNewDistinct([], res, UriOf);
    SeparateUris(out);
    assert res[..|res|] == res;
    StoredFromList(was, res, |res|, out);
  }

  lemma SeparateUris(res: seq<Resource>)
    requires Coherent(Elements(res)) && DistinctKeys(res, UriOf)
    ensures Separate(res)
  {
    forall i, j | 0 <= i < j < |res|
      ensures res[i] != res[j] && (res[i].props != null ==> res[i].props != res[j].props)
    {
      assert UriOf(res[i]) != UriOf(res[j]);
    }
  }

  /** Marks one resource as a database if it is an instance. */
  method MarkOne(r: Resource)
    modifies r`props, r.props
    ensures View(r) == MarkDatabase(old(View(r)))
    ensures r.props == old(r.props) || (old(r.props) == null && fresh(r.props))
    ensures r.kind == InstanceKind ==> r.props != null
  {
    if r.kind == InstanceKind {
      if r.props == null {
        var p := new InstanceProperties(NoProps);
        r.props := p;
      }
      r.props.roles := r.props.roles + {Database};
    }
  }

  /** The first `n` resources of a list are marked, the others are as before. */
  ghost predicate MarkedUpTo(rs: seq<Resource>, was: seq<ResourceValue>, n: nat)
    requires |was| == |rs|
    reads Elements(rs), PropsOf(Elements(rs))
  {
    Separate(rs) && forall k :: 0 <= k < |rs| ==> View(rs[k]) == if k < n then MarkDatabase(was[k]) else was[k]
  }

  /** Marks one more resource of a list. */
  method MarkNext(rs: seq<Resource>, i: nat, r: Resource, ghost was: seq<ResourceValue>, ghost own: set<object>)
    returns (ghost own': set<object>)
    requires i < |rs| == |was| && r == rs[i] && MarkedUpTo(rs, was, i) && Within(rs, own)
    modifies r`props, r.props
    ensures MarkedUpTo(rs, was, i + 1) && Within(rs, own')
    ensures forall o :: o in own' ==> o in own || fresh(o)
  {
    MarkOne(r);
    assert forall k :: 0 <= k < |rs| && k != i ==> rs[k] != rs[i];
    own' := own + if r.props == null then {} else {r.props};
  }

  lemma RegionStep(env: Env, vs: seq<ResourceValue>, i: nat, name: string)
    requires i < |vs|
    ensures env.RegionOf(vs[..i + 1], name)
         == if IsInstance(vs[i]) && vs[i].props.Some? && vs[i].props.value.hostname == name then env.region(vs[i].uri)
            else env.RegionOf(vs[..i], name)
  {
    assert vs[..i + 1][..i] == vs[..i];
  }

  /** Marks the instances of a site as databases and finds the region of the site. */
  method MarkInstances(env: Env, rs: seq<Resource>, name: string, ghost own0: set<object>)
    returns (region: string, ghost own: set<object>)
    requires Separate(rs) && Within(rs, own0)
    modifies own0
    ensures Views(rs) == MarkAll(old(Views(rs))) && Separate(rs) && Within(rs, own)
    ensures region == env.RegionOf(MarkAll(old(Views(rs))), name)
    ensures forall o :: o in own ==> o in own0 || fresh(o)
  {
    region, own := "", own0;
    ghost var was, marked := Views(rs), MarkAll(Views(rs));
    TakeAll(marked);
    for i := 0 to |rs|
      invariant MarkedUpTo(rs, was, i) && Within(rs, own)
      invariant forall o :: o in own ==> o in own0 || fresh(o)
      invariant region == env.RegionOf(marked[..i], name)
    {
      RegionStep(env, marked, i, name);
      own := MarkNext(rs, i, rs[i], was, own);
      assert View(rs[i]) == marked[i];
      if rs[i].kind == InstanceKind && rs[i].props.hostname == name {
        region := env.region(rs[i].uri);
      }
    }
    assert Views(rs) == marked;
  }

  // ----- load balancer groups -----------------------------------------------

  /** The load balancer group of a site: the first group of its first instance that has one. */
  method SiteGroup(res: seq<Resource>, groups: seq<LbGroup>) returns (group: Option<LbGroup>)
    ensures group == FirstGroup(groups, Views(res)) && IsGroupOf(groups, Views(res), group)
  {
    group := None;
    ghost var vs := Views(res);
    FirstGroupFound(groups, vs);
    for i := 0 to |res|
      invariant FirstGroup(groups, vs) == FirstGroup(groups, vs[i..])
    {
      var r := res[i];
      if r.kind != InstanceKind {
        continue;
      }
      for j := 0 to |groups|
        invariant FindGroup(groups, r.uri) == FindGroup(groups[j..], r.uri)
      {
        if r.uri in groups[j].instances {
          return Some(groups[j]);
        }
      }
    }
  }

  // ----- building the tree --------------------------------------------------
  /** A component under construction out of objects of its own, with the finished sites below it. */
  ghost predicate Growing(comp: Component, own: set<object>, kids: seq<Shape>)
    reads comp, own, FootAll(kids)
  {
    && comp !in own && Elements(comp.resources) <= own && Within(comp.resources, own)
    && DistinctKeys(comp.resources, UriOf) && Separate(comp.resources)
    && comp.sites == SitesOf(kids)
    && OwnedAll(kids) && ApartAll(kids)
    && own + {comp} !! FootAll(kids)
  }

  ghost function GrownView(comp: Component, own: set<object>, kids: seq<Shape>): ComponentValue
    requires Growing(comp, own, kids)
    reads comp, own, FootAll(kids)
  {
    ComponentValue(Views(comp.resources), comp.region, comp.haHosts, comp.sid, ViewAll(kids))
  }

  /** Names the source of a finished site. The other finished sites stay as they are. */
  method NameSource(child: ReplicationSite, name: string, ghost res: seq<Resource>, ghost kids: seq<Shape>, ghost t: Shape)
    requires OwnedAll(kids) && Owned(t) && Apart(t) && child == t.site && Foot(t) !! FootAll(kids)
    modifies child`sourceSite
    ensures OwnedAll(kids + [t]) && ViewAll(kids + [t]) == old(ViewAll(kids)) + [old(ViewOf(t)).(source := name)]
    ensures Views(res) == old(Views(res))
  {
    child.sourceSite := name;
    assert OwnedAll(t.kids) && ViewAll(t.kids) == old(ViewAll(t.kids));
    assert Views(t.resources) == old(Views(t.resources));
    assert OwnedAll(kids) && ViewAll(kids) == old(ViewAll(kids));
    assert OwnedAll([t]);
    ForestConcat(kids, [t]);
  }

  /** Links finished sites under a component. */
  method LinkSites(comp: Component, sites: seq<ReplicationSite>, ghost kids: seq<Shape>)
    requires OwnedAll(kids) && comp !in FootAll(kids)
    modifies comp`sites
    ensures comp.sites == old(comp.sites) + sites
    ensures OwnedAll(kids) && ViewAll(kids) == old(ViewAll(kids))
    ensures Views(comp.resources) == old(Views(comp.resources))
  {
    comp.sites := comp.sites + sites;
  }

  /** Two forests without common objects. */
  lemma Beside(kids: seq<Shape>, more: seq<Shape>)
    requires ApartAll(kids) && ApartAll(more) && FootAll(kids) !! FootAll(more)
    ensures ApartAll(kids + more) && SitesOf(kids + more) == SitesOf(kids) + SitesOf(more)
    ensures FootAll(kids + more) == FootAll(kids) + FootAll(more)
  {
    FootAllConcat(kids, more);
    ApartConcat(kids, more);
  }

  lemma ForestOfOne(t: Shape)
    requires Apart(t)
    ensures ApartAll([t]) && FootAll([t]) == Foot(t) && SitesOf([t]) == [t.site]
  {
    assert [t][0] == t;
  }

  /** A target outside the load balancer group becomes a replication site of this one. */
  method AddSite(comp: Component, name: string, child: ReplicationSite, ghost own: set<object>, ghost kids: seq<Shape>,
                 ghost t: Shape)
    requires Growing(comp, own, kids) && Owned(t) && Apart(t) && child == t.site
    requires Foot(t) !! own + {comp} + FootAll(kids)
    modifies comp`sites, child`sourceSite
    ensures Growing(comp, own, kids + [t])
    ensures GrownView(comp, own, kids + [t])
         == var v := old(GrownView(comp, own, kids)); v.(sites := v.sites + [old(ViewOf(t)).(source := name)])
  {
    ForestOfOne(t);
    Beside(kids, [t]);
    NameSource(child, name, comp.resources, kids, t);
    LinkSites(comp, [child], kids + [t]);
  }

  /** Removes duplicates from a list whose objects are apart from the finished sites. */
  method CleanBeside(res: seq<Resource>, ghost own: set<object>, ghost kids: seq<Shape>, ghost foot: set<object>)
    returns (out: seq<Resource>)
    requires Separate(res) && Within(res, own) && OwnedAll(kids) && foot == FootAll(kids) && own !! foot
    modifies own
    ensures Views(out) == Dedup(old(Views(res))) && DistinctKeys(out, UriOf) && Separate(out) && Within(out, own)
    ensures OwnedAll(kids) && ViewAll(kids) == old(ViewAll(kids))
  {
    assert forall o :: o in foot ==> allocated(o) && o !in own;
    out := Clean(res, own);
  }

  /** Stores merged resources, hoisted sites and the hosts of the load balancer group in a component. */
  method MergeSite(comp: Component, res: seq<Resource>, sites: seq<ReplicationSite>, hosts: seq<string>,
                   ghost own: set<object>, ghost kids: seq<Shape>, ghost foot: set<object>)
    requires Separate(res) && Within(res, own) && OwnedAll(kids) && foot == FootAll(kids) && own !! foot
    requires comp !in own && comp !in foot
    modifies comp, own
    ensures comp.sites == old(comp.sites) + sites && comp.haHosts == old(comp.haHosts) + hosts
    ensures comp.region == old(comp.region) && comp.sid == old(comp.sid)
    ensures DistinctKeys(comp.resources, UriOf) && Separate(comp.resources) && Within(comp.resources, own)
    ensures Views(comp.resources) == Dedup(old(Views(res)))
    ensures OwnedAll(kids) && ViewAll(kids) == old(ViewAll(kids))
  {
    var clean := CleanBeside(res, own, kids, foot);
    LinkSites(comp, sites, kids);
    StoreMerged(comp, clean, hosts, kids);
  }

  /** Stores merged resources and the hosts of a load balancer group. The finished sites stay as they are. */
  method StoreMerged(comp: Component, res: seq<Resource>, hosts: seq<string>, ghost kids: seq<Shape>)
    requires OwnedAll(kids) && comp !in FootAll(kids)
    modifies comp`resources, comp`haHosts
    ensures comp.resources == res && comp.haHosts == old(comp.haHosts) + hosts
    ensures OwnedAll(kids) && ViewAll(kids) == old(ViewAll(kids))
  {
    comp.resources := res;
    comp.haHosts := comp.haHosts + hosts;
  }

  /**
   * A target in the same load balancer group is absorbed: its resources are
   * merged into this component and its replication sites are hoisted.
   */
  method AbsorbSite(comp: Component, group: LbGroup, child: ReplicationSite, ghost own: set<object>,
                    ghost kids: seq<Shape>, ghost t: Shape)
    requires Growing(comp, own, kids) && Owned(t) && Apart(t) && child == t.site
    requires Foot(t) !! own + {comp} + FootAll(kids)
    modifies comp, own, Stock(t)
    ensures Growing(comp, own + Stock(t), kids + t.kids)
    ensures GrownView(comp, own + Stock(t), kids + t.kids)
         == var v, c := old(GrownView(comp, own, kids)), old(ViewOf(t)).component;
            v.(resources := Dedup(v.resources + c.resources), sites := v.sites + c.sites, haHosts := v.haHosts + group.instances)
  {
    Beside(kids, t.kids);
    ForestConcat(kids, t.kids);
    Alongside(comp.resources, own, t);
    ghost var foot := FootAll(kids + t.kids);
    assert own + Stock(t) !! foot && comp !in foot;
    MergeSite(comp, comp.resources + child.component.resources, child.component.sites, group.instances,
              own + Stock(t), kids + t.kids, foot);
  }

  /** The resources of two disjoint components do not share anything. */
  lemma Alongside(res: seq<Resource>, own: set<object>, t: Shape)
    requires Separate(res) && Within(res, own) && Owned(t) && Apart(t) && Stock(t) !! own
    ensures Separate(res + t.resources) && Within(res + t.resources, own + Stock(t))
    ensures Views(res + t.resources) == Views(res) + Views(t.resources)
  {
    forall i, j | 0 <= i < j < |t.resources|
      ensures t.resources[i] != t.resources[j]
      ensures t.props[i] != null ==> t.props[i] != t.props[j]
    {
      assert UriOf(t.resources[i]) != UriOf(t.resources[j]);
    }
    forall r | r in t.resources ensures r in Stock(t) && (r.props != null ==> r.props in Stock(t)) {
      var i :| 0 <= i < |t.resources| && t.resources[i] == r;
      assert t.props[i] in t.props;
    }
    forall i, j | 0 <= i < |res| && 0 <= j < |t.resources|
      ensures res[i] != t.resources[j] && (res[i].props != null ==> res[i].props != t.resources[j].props)
    {
      assert res[i] in res && t.resources[j] in t.resources;
    }
  }

  /** Attaches a finished target to the component of its site. */
  method AttachChild(env: Env, name: string, comp: Component, group: Option<LbGroup>, child: ReplicationSite,
                     ghost own: set<object>, ghost kids: seq<Shape>, ghost t: Shape)
    returns (ghost own': set<object>, ghost kids': seq<Shape>)
    requires group == env.GroupOf(name) && Growing(comp, own, kids)
    requires Owned(t) && Apart(t) && child == t.site && ViewOf(t).source == ""
    requires Foot(t) !! own + {comp} + FootAll(kids)
    modifies comp, own, Foot(t)
    ensures Growing(comp, own', kids')
    ensures GrownView(comp, own', kids') == env.Attach(old(GrownView(comp, own, kids)), name, old(ViewOf(t)).component)
    ensures own' <= own + Foot(t) && FootAll(kids') <= FootAll(kids) + Foot(t)
  {
    ghost var vs := ViewOf(t).component.resources;
    var res := child.component.resources;
    var inLbGroup := false;
    if group.Some? {
      for i := 0 to |res|
        invariant !inLbGroup && forall k :: 0 <= k < i ==> !(IsInstance(vs[k]) && vs[k].uri in group.value.instances)
      {
        if res[i].kind != InstanceKind {
          continue;
        }
        if res[i].uri in group.value.instances {
          inLbGroup := true;
          assert vs[i] in vs;
          break;
        }
      }
    }
    FootAllConcat(kids, t.kids);
    FootAllConcat(kids, [t]);
    ForestOfOne(t);
    if inLbGroup {
      own', kids' := own + Stock(t), kids + t.kids;
      AbsorbSite(comp, group.value, child, own, kids, t);
    } else {
      own', kids' := own, kids + [t];
      AddSite(comp, name, child, own, kids, t);
    }
  }

  /** All objects of a component under construction. */
  ghost function Grounds(comp: Component, own: set<object>, kids: seq<Shape>): set<object> {
    {comp} + own + FootAll(kids)
  }

  /** The component under construction, made of the objects `mine`, has the given value. */
  ghost predicate Holds(comp: Component, own: set<object>, kids: seq<Shape>, mine: set<object>, v: ComponentValue)
    reads mine
  {
    mine == Grounds(comp, own, kids) && Growing(comp, own, kids) && GrownView(comp, own, kids) == v
  }

  /** The finished site, made of the objects `foot`, has the given value. */
  ghost predicate Finished(rep: ReplicationSite, t: Shape, foot: set<object>, v: SiteValue)
    reads foot
  {
    foot == Foot(t) && t.site == rep && Owned(t) && Apart(t) && ViewOf(t) == v
  }

  /** Attaches a finished target, made of objects of its own, to the component of its site. */
  method AttachFinished(env: Env, name: string, comp: Component, group: Option<LbGroup>, child: ReplicationSite,
                        ghost own: set<object>, ghost kids: seq<Shape>, ghost mine: set<object>,
                        ghost t: Shape, ghost foot: set<object>, ghost v: ComponentValue, ghost c: ComponentValue)
    returns (ghost own': set<object>, ghost kids': seq<Shape>, ghost mine': set<object>)
    requires group == env.GroupOf(name) && Holds(comp, own, kids, mine, v)
    requires Finished(child, t, foot, SiteValue(c, "")) && foot !! mine
    modifies mine, foot
    ensures Holds(comp, own', kids', mine', env.Attach(v, name, c)) && mine' <= mine + foot
  {
    own', kids' := AttachChild(env, name, comp, group, child, own, kids, t);
    mine' := Grounds(comp, own', kids');
  }

  /** Discovers the next target of a site and attaches it to the component of the site. */
  method AttachTarget(env: Env, s: Replica, i: nat, comp: Component, group: Option<LbGroup>,
                      ghost own: set<object>, ghost kids: seq<Shape>, ghost mine: set<object>)
    returns (ghost own': set<object>, ghost kids': seq<Shape>, ghost mine': set<object>)
    requires i < |s.targets| && group == env.GroupOf(s.name)
    requires Holds(comp, own, kids, mine, env.BuildUpTo(s, i))
    modifies mine
    ensures Holds(comp, own', kids', mine', env.BuildUpTo(s, i + 1))
    ensures forall o :: o in mine' ==> o in mine || fresh(o)
    decreases s, 0
  {
    assert forall o :: o in mine ==> allocated(o);
    var child, t, foot := DiscoverReplicationSite(env, s.targets[i]);
    assert foot !! mine;
    own', kids', mine' := AttachFinished(env, s.name, comp, group, child, own, kids, mine, t, foot,
                                         env.BuildUpTo(s, i), env.Build(s.targets[i]));
    assert env.BuildUpTo(s, i + 1) == env.Attach(env.BuildUpTo(s, i), s.name, env.Build(s.targets[i]));
  }

  /** Discovers and attaches all targets of a site, in order. */
  method AttachTargets(env: Env, s: Replica, comp: Component, group: Option<LbGroup>, ghost own0: set<object>,
                       ghost mine0: set<object>)
    returns (ghost own: set<object>, ghost kids: seq<Shape>, ghost mine: set<object>)
    requires group == env.GroupOf(s.name) && Holds(comp, own0, [], mine0, env.Own(s.name))
    modifies mine0
    ensures Holds(comp, own, kids, mine, env.Build(s))
    ensures forall o :: o in mine ==> o in mine0 || fresh(o)
    decreases s, 1
  {
    own, kids, mine := own0, [], mine0;
    for i := 0 to |s.targets|
      invariant forall o :: o in mine ==> o in mine0 || fresh(o)
      invariant Holds(comp, own, kids, mine, env.BuildUpTo(s, i))
    {
      own, kids, mine := AttachTarget(env, s, i, comp, group, own, kids, mine);
    }
  }

  /** Builds the component tree of a replica tree out of new objects. */
  method DiscoverReplicationSite(env: Env, s: Replica) returns (rep: ReplicationSite, ghost t: Shape, ghost foot: set<object>)
    ensures forall o :: o in foot ==> fresh(o)
    ensures Finished(rep, t, foot, SiteValue(env.Build(s), ""))
    decreases s, 2
  {
    var comp, group, own, mine := DiscoverOwn(env, s.name);
    ghost var all, kids;
    own, kids, all := AttachTargets(env, s, comp, group, own, mine);
    assert fresh(all);
    rep, t, foot := Finish(comp, own, kids, all, env.Build(s));
  }

  /** Wraps a finished component into a replication site. */
  method Finish(comp: Component, ghost own: set<object>, ghost kids: seq<Shape>, ghost mine: set<object>, ghost v: ComponentValue)
    returns (rep: ReplicationSite, ghost t: Shape, ghost foot: set<object>)
    requires Holds(comp, own, kids, mine, v)
    ensures forall o :: o in foot ==> o in mine || fresh(o)
    ensures Finished(rep, t, foot, SiteValue(v, ""))
  {
    assert forall o :: o in mine ==> allocated(o);
    rep := new ReplicationSite(comp);
    assert rep !in mine;
    t := ShapeOf(rep, comp, own, kids);
    foot := Foot(t);
    assert foot <= mine + {rep};
  }

  /** Discovers the resources of a site itself: its component before any target, and its load balancer group. */
  method DiscoverOwn(env: Env, name: string)
    returns (comp: Component, group: Option<LbGroup>, ghost own: set<object>, ghost mine: set<object>)
    ensures forall o :: o in mine ==> fresh(o)
    ensures Holds(comp, own, [], mine, env.Own(name)) && group == env.GroupOf(name)
  {
    var found := Discover(env, name);
    group := SiteGroup(found, env.groups);
    comp, own, mine := OwnComponent(env, name, found, Objects(found));
  }

  /** The component of a site before any target. */
  method OwnComponent(env: Env, name: string, found: seq<Resource>, ghost all: set<object>)
    returns (comp: Component, ghost own: set<object>, ghost mine: set<object>)
    requires Separate(found) && all == Objects(found) && Views(found) == env.discover(name)
    modifies all
    ensures forall o :: o in mine ==> o in all || fresh(o)
    ensures Holds(comp, own, [], mine, env.Own(name))
  {
    var region, res;
    region, res, own := OwnResources(env, name, found, all);
    comp, mine := NewComponent(env, res, region, own);
  }

  /** The resources of a site without duplicates, marked as databases. */
  method OwnResources(env: Env, name: string, found: seq<Resource>, ghost all: set<object>)
    returns (region: string, res: seq<Resource>, ghost own: set<object>)
    requires Separate(found) && all == Objects(found)
    modifies all
    ensures var vs := MarkAll(Dedup(old(Views(found)))); Views(res) == vs && region == env.RegionOf(vs, name)
    ensures Separate(res) && DistinctKeys(res, UriOf) && Within(res, own)
    ensures forall o :: o in own ==> o in all || fresh(o)
  {
    res := Clean(found, all);
    region, own := MarkInstances(env, res, name, all);
  }

  method NewComponent(env: Env, res: seq<Resource>, region: string, ghost own: set<object>)
    returns (comp: Component, ghost mine: set<object>)
    requires Separate(res) && DistinctKeys(res, UriOf) && Within(res, own)
    ensures forall o :: o in mine ==> o in own || fresh(o)
    ensures Holds(comp, own, [], mine, ComponentValue(old(Views(res)), region, [], env.sid, []))
  {
    assert forall o :: o in own ==> allocated(o);
    comp := new Component(res, env.sid);
    comp.region := region;
    mine := {comp} + own;
    assert mine == Grounds(comp, own, []);
  }

  ghost function ShapeOf(rep: ReplicationSite, comp: Component, own: set<object>, kids: seq<Shape>): (t: Shape)
    requires rep.component == comp && rep.sourceSite == "" && Growing(comp, own, kids)
    requires rep !in own && rep !in FootAll(kids)
    reads rep, comp, own, FootAll(kids)
    ensures Foot(t) <= own + {comp, rep} + FootAll(kids)
    ensures Owned(t) && Apart(t) && t.site == rep
    ensures ViewOf(t) == SiteValue(GrownView(comp, own, kids), "")
  {
    Shape(rep, comp, comp.resources, PropsList(comp.resources), kids)
  }

  ghost function PropsList(res: seq<Resource>): (ps: seq<InstanceProperties?>)
    reads Elements(res)
    ensures |ps| == |res| && forall i :: 0 <= i < |res| ==> ps[i] == res[i].props
  {
    seq(|res|, i requires 0 <= i < |res| reads Elements(res) => res[i].props)
  }
}

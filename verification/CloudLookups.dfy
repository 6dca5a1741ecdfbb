/**
 * Lookups of cloud resources through a cache
 * (internal/system/clouddiscovery/cloud_discovery.go): a lookup may return
 * objects that are in use already.
 */
module CloudLookups {
  import opened Common
  import opened Resources
  import opened FactSets
  import opened HostResources
  import opened Topology
  import opened TopologyJoins
  import opened DiscoveryUpdate

  // ----- what does not change about a resource ------------------------------

  /** What is fixed about a resource. */
  datatype Item = Item(uri: string, kind: Kind)

  function ItemUri(i: Item): string {
    i.uri
  }

  function Items(vs: seq<ResourceValue>): (items: seq<Item>)
    ensures |items| == |vs| && forall i :: 0 <= i < |vs| ==> items[i] == Item(vs[i].uri, vs[i].kind)
  {
    seq(|vs|, i requires 0 <= i < |vs| => Item(vs[i].uri, vs[i].kind))
  }

  function ItemsOf(res: seq<Resource>): (items: seq<Item>)
    ensures |items| == |res| && forall i :: 0 <= i < |res| ==> items[i] == Item(res[i].uri, res[i].kind)
  {
    seq(|res|, i requires 0 <= i < |res| => Item(res[i].uri, res[i].kind))
  }

  /** The list without duplicate URIs has the first item of each URI, whatever else the entries say. */
  lemma {:induction false} ItemsOfDedup(vs: seq<ResourceValue>)
    ensures Items(Dedup(vs)) == AppendNew([], Items(vs), ItemUri)
  {
    if vs != [] {
      var init, v := vs[..|vs| - 1], vs[|vs| - 1];
      ItemsOfDedup(init);
      assert Items(vs)[..|vs| - 1] == Items(init);
      InsertItem(Dedup(init), v);
    }
  }

  lemma InsertItem(out: seq<ResourceValue>, v: ResourceValue)
    ensures Items(Insert(out, v)) == if HasKey(Items(out), ItemUri, v.uri) then Items(out) else Items(out) + [Item(v.uri, v.kind)]
  {
    var k := IndexOf(out, v.uri);
    if k < |out| {
      assert ItemUri(Items(out)[k]) == v.uri;
    }
  }

  lemma {:induction false} ItemsOfAppendNew(res: seq<Resource>)
    ensures ItemsOf(AppendNew([], res, UriOf)) == AppendNew([], ItemsOf(res), ItemUri)
  {
    if res != [] {
      var init, r := res[..|res| - 1], res[|res| - 1];
      ItemsOfAppendNew(init);
      assert ItemsOf(res)[..|res| - 1] == ItemsOf(init);
      SameUris(AppendNew([], init, UriOf), r.uri);
    }
  }

  lemma SameUris(out: seq<Resource>, uri: string)
    ensures HasKey(ItemsOf(out), ItemUri, uri) <==> HasKey(out, UriOf, uri)
  {
    if HasKey(out, UriOf, uri) {
      var i :| 0 <= i < |out| && UriOf(out[i]) == uri;
      assert ItemUri(ItemsOf(out)[i]) == uri;
    }
    if HasKey(ItemsOf(out), ItemUri, uri) {
      var i :| 0 <= i < |out| && ItemUri(ItemsOf(out)[i]) == uri;
      assert UriOf(out[i]) == uri;
    }
  }

  /** Load balancer groups are found by what is fixed. */
  lemma {:induction false} GroupByItems(groups: seq<LbGroup>, a: seq<ResourceValue>, b: seq<ResourceValue>)
    requires Items(a) == Items(b)
    ensures FirstGroup(groups, a) == FirstGroup(groups, b)
  {
    if a != [] {
      assert Items(a)[0] == Items(b)[0];
      assert Items(a[1..]) == Items(a)[1..] == Items(b[1..]);
      GroupByItems(groups, a[1..], b[1..]);
    }
  }

  lemma InGroupByItems(g: LbGroup, a: seq<ResourceValue>, b: seq<ResourceValue>)
    requires Items(a) == Items(b) && InGroup(g, a)
    ensures InGroup(g, b)
  {
    var r :| r in a && IsInstance(r) && r.uri in g.instances;
    var i :| 0 <= i < |a| && a[i] == r;
    assert Items(b)[i] == Items(a)[i];
    assert b[i] in b;
  }

  // ----- the cache ----------------------------------------------------------

  ghost predicate IsDatabase(r: Resource)
    reads r, r.props
  {
    r.props != null && Database in r.props.roles
  }

  lemma DatabaseSays(pool: set<Resource>, r: Resource)
    requires r in pool
    ensures IsDatabase(r) <==> HasRole(Database) in Says(Take(pool), r)
  {
    NowSays(pool, r);
    FactsAre(View(r), HasRole(Database));
  }

  lemma DatabasesSay(pool: set<Resource>, settled: set<Resource>)
    requires forall r :: r in settled ==> r in pool && (r.kind == InstanceKind ==> IsDatabase(r))
    ensures forall r :: r in settled && r.kind == InstanceKind ==> HasRole(Database) in Says(Take(pool), r)
  {
    forall r | r in settled && r.kind == InstanceKind ensures HasRole(Database) in Says(Take(pool), r) {
      DatabaseSays(pool, r);
    }
  }

  lemma PropsStay(before: Snapshot, pool: set<Resource>, res: seq<Resource>, out: seq<Resource>, props: set<InstanceProperties>)
    requires Removed(before, Take(pool), pool, res, out) && PropsOf(Elements(res)) <= props
    requires forall r :: r in pool && before.props[r] != null ==> before.props[r] in props
    ensures forall r :: r in pool && r.props != null ==> r.props in props
  {
    assert forall r :: r in out ==> r in Elements(res);
  }

  lemma DatabasesStay(before: Snapshot, pool: set<Resource>, res: seq<Resource>, out: seq<Resource>, settled: set<Resource>)
    requires Removed(before, Take(pool), pool, res, out) && settled <= pool
    requires forall r :: r in settled && r.kind == InstanceKind ==> HasRole(Database) in Says(before, r)
    ensures forall r :: r in settled && r.kind == InstanceKind ==> IsDatabase(r)
  {
    forall r | r in settled && r.kind == InstanceKind ensures IsDatabase(r) {
      NothingForgotten(before, Take(pool), pool, res, out, r);
      DatabaseSays(pool, r);
    }
  }

  class CloudDiscovery {
    const kindOf: string -> Kind
    /** Whether a cached resource is younger than ten minutes when the cache is looked into for the n-th time. */
    const current: (nat, string) -> bool
    var resourceCache: map<string, Resource>
    var lookups: nat
    /** All resources found so far, and their objects. */
    ghost var found: set<Resource>
    ghost var objects: set<object>
    /** The resources that components were made of: the instances among them carry the database role. */
    ghost var settled: set<Resource>

    ghost predicate Valid()
      reads this, objects
    {
      && (forall r :: r in found ==> r in objects && r.kind == kindOf(r.uri) && (r.props != null ==> r.props in objects))
      && (forall o :: o in objects ==> o is Resource || o is InstanceProperties)
      && Coherent(found)
      && (forall u :: u in resourceCache ==> resourceCache[u] in found && resourceCache[u].uri == u)
      && (forall r :: r in settled ==> r in found && (r.kind == InstanceKind ==> IsDatabase(r)))
    }

    constructor (kindOf: string -> Kind, current: (nat, string) -> bool)
      ensures Valid() && this.kindOf == kindOf && objects == {}
    {
      this.kindOf, this.current := kindOf, current;
      resourceCache, lookups, found, objects, settled := map[], 0, {}, {}, {};
    }

    /** The lookup of one resource: the cached object if it is not too old, otherwise a new one. */
    method DiscoverResource(v: ResourceValue) returns (r: Resource)
      requires Valid() && v.kind == kindOf(v.uri)
      modifies this, objects
      ensures Valid() && r in found && r.uri == v.uri && lookups == old(lookups) + 1
      ensures if v.uri in old(resourceCache) && current(lookups, v.uri)
              then r == old(resourceCache[v.uri]) && resourceCache == old(resourceCache)
              else fresh(r) && View(r) == v && resourceCache == old(resourceCache)[v.uri := r]
      ensures old(found) <= found && old(settled) <= settled && fresh(objects - old(objects))
    {
      lookups := lookups + 1;
      if v.uri in resourceCache && current(lookups, v.uri) {
        r := resourceCache[v.uri];
        if v.props.Some? && v.props.value.hostname != "" {
          SetVirtualHostname(r, v.props.value.hostname);
        }
      } else {
        r := CreateResource(v);
      }
    }

    /** A new resource, which is remembered. */
    method CreateResource(v: ResourceValue) returns (r: Resource)
      requires Valid() && v.kind == kindOf(v.uri)
      modifies this`resourceCache, this`found, this`objects
      ensures Valid() && r in found && r.uri == v.uri && fresh(r) && View(r) == v
      ensures resourceCache == old(resourceCache)[v.uri := r]
      ensures old(found) <= found && fresh(objects - old(objects))
    {
      r := new Resource(v);
      Remember(r);
    }

    /** Makes sure that a resource has properties. */
    method NeedProps(r: Resource)
      requires Valid() && r in found
      modifies this`objects, r`props
      ensures Valid() && fresh(objects - old(objects)) && r.props != null && r.props in objects
    {
      if r.props == null {
        var p := new InstanceProperties(NoProps);
        r.props := p;
        objects := objects + {p};
      }
    }

    /** A resource looked up by its virtual host name takes that name, also if it was cached. */
    method SetVirtualHostname(r: Resource, hostname: string)
      requires Valid() && r in found
      modifies this`objects, objects
      ensures Valid() && fresh(objects - old(objects))
    {
      NeedProps(r);
      r.props.hostname := hostname;
    }

    method Remember(r: Resource)
      requires Valid() && r !in found && r.kind == kindOf(r.uri)
      requires r.props != null ==> r.props !in objects
      modifies this`resourceCache, this`found, this`objects
      ensures Valid() && r in found && found == old(found) + {r}
      ensures objects == old(objects) + {r} + if r.props == null then {} else {r.props}
      ensures resourceCache == old(resourceCache)[r.uri := r]
    {
      resourceCache := resourceCache[r.uri := r];
      found := found + {r};
      objects := objects + {r} + if r.props == null then {} else {r.props};
    }

    /** The lookup of the resources of a site. */
    method DiscoverComputeResources(env: Env, name: string) returns (res: seq<Resource>)
      requires Valid() && OfKind(env.discover(name), kindOf)
      modifies this, objects
      ensures Valid() && Elements(res) <= found && ItemsOf(res) == Items(env.discover(name))
      ensures old(found) <= found && old(settled) <= settled && fresh(objects - old(objects))
    {
      var vs := env.discover(name);
      res := [];
      for i := 0 to |vs|
        invariant Valid() && Elements(res) <= found && ItemsOf(res) == Items(vs[..i])
        invariant old(found) <= found && old(settled) <= settled && fresh(objects - old(objects))
      {
        assert vs[i] in vs;
        var r := DiscoverResource(vs[i]);
        res := res + [r];
      }
      assert vs[..|vs|] == vs;
    }

    /** Removes duplicates from resources that may be in use elsewhere. */
    method RemoveDuplicates(res: seq<Resource>) returns (out: seq<Resource>)
      requires Valid() && Elements(res) <= found
      modifies objects
      ensures Valid() && out == AppendNew([], res, UriOf)
    {
      ghost var before := Take(found);
      DatabasesSay(found, settled);
      ghost var props := PropsOf(found);
      out := RemoveDuplicatesIn(res, found, props, before);
      PropsStay(before, found, res, out, props);
      DatabasesStay(before, found, res, out, settled);
    }

    /** Gives the database role to an instance. */
    method MarkDatabase(r: Resource)
      requires Valid() && r in found
      modifies this`objects, this`settled, objects
      ensures Valid() && settled == old(settled) + {r} && fresh(objects - old(objects)) && r.props != null
    {
      NeedProps(r);
      r.props.roles := r.props.roles + {Database};
      settled := settled + {r};
    }

    /** Gives the database role to the instances of a site and finds the region of the site. */
    method MarkInstances(env: Env, rs: seq<Resource>, name: string) returns (region: string)
      requires Valid() && Elements(rs) <= found
      modifies this`objects, this`settled, objects
      ensures Valid() && Elements(rs) <= settled && old(settled) <= settled && fresh(objects - old(objects))
    {
      region := "";
      for i := 0 to |rs|
        invariant Valid() && forall k :: 0 <= k < i ==> rs[k] in settled
        invariant old(settled) <= settled && fresh(objects - old(objects))
      {
        var r := rs[i];
        assert r in Elements(rs);
        if r.kind == InstanceKind {
          MarkDatabase(r);
          if r.props.hostname == name {
            region := env.region(r.uri);
          }
        } else {
          settled := settled + {r};
        }
      }
    }

    /** The resources of a site without duplicates and with the database role, and the region of the site. */
    method OwnResources(env: Env, all: seq<Resource>, name: string) returns (res: seq<Resource>, region: string)
      requires Valid() && Elements(all) <= found
      modifies this`objects, this`settled, objects
      ensures Valid() && res == AppendNew([], all, UriOf)
      ensures Elements(res) <= settled && old(settled) <= settled && fresh(objects - old(objects))
    {
      res := RemoveDuplicates(all);
      var none: seq<Resource> := [];
      AppendNewKeys(none, all, UriOf);
      assert forall r :: r in res ==> r in Elements(all);
      region := MarkInstances(env, res, name);
    }
  }
}

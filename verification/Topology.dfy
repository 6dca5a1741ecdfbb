/**
 * The component tree that discovery builds from a HANA replica tree
 * (internal/system/discovery.go, discoverReplicationSite), on values: what is
 * built, and which replication sites end up in which component.
 */
module Topology {
  import opened Common
  import opened Resources

  /** A HANA replica tree: a site and the sites it replicates to. */
  datatype Replica = Replica(name: string, targets: seq<Replica>)

  /** A load balancer and the instances behind it. */
  datatype LbGroup = LbGroup(lb: string, instances: seq<string>)

  datatype ComponentValue = ComponentValue(
    resources: seq<ResourceValue>, region: string, haHosts: seq<string>, sid: string, sites: seq<SiteValue>)

  datatype SiteValue = SiteValue(component: ComponentValue, source: string)

  /** A position in a replica tree: the target index taken at each level. */
  type Path = seq<nat>

  predicate IsInstance(r: ResourceValue) {
    r.kind == InstanceKind
  }

  const NoProps := PropsValue({}, "", [], [])

  /** An instance found for a database site carries the database role. */
  function MarkDatabase(r: ResourceValue): ResourceValue {
    if !IsInstance(r) then r
    else
      var p := if r.props.Some? then r.props.value else NoProps;
      r.(props := Some(p.(roles := p.roles + {Database})))
  }

  function MarkAll(rs: seq<ResourceValue>): (out: seq<ResourceValue>)
    ensures |out| == |rs| && forall i :: 0 <= i < |rs| ==> out[i] == MarkDatabase(rs[i])
  {
    seq(|rs|, i requires 0 <= i < |rs| => MarkDatabase(rs[i]))
  }

  predicate InGroup(g: LbGroup, rs: seq<ResourceValue>) {
    exists r :: r in rs && IsInstance(r) && r.uri in g.instances
  }

  /** The first group of which a URI is a member. */
  function FindGroup(groups: seq<LbGroup>, uri: string): Option<LbGroup> {
    if groups == [] then None
    else if uri in groups[0].instances then Some(groups[0])
    else FindGroup(groups[1..], uri)
  }

  /** The group of the first instance that has one. */
  function FirstGroup(groups: seq<LbGroup>, rs: seq<ResourceValue>): Option<LbGroup> {
    if rs == [] then None
    else if IsInstance(rs[0]) && FindGroup(groups, rs[0].uri).Some? then FindGroup(groups, rs[0].uri)
    else FirstGroup(groups, rs[1..])
  }

  /** The first instance that is in any group is at place `i`, and the first group it is in at place `j`. */
  ghost predicate FoundAt(groups: seq<LbGroup>, rs: seq<ResourceValue>, i: int, j: int) {
    && 0 <= i < |rs| && 0 <= j < |groups| && rs[i].kind == InstanceKind && rs[i].uri in groups[j].instances
    && (forall k, g :: 0 <= k < i && rs[k].kind == InstanceKind && g in groups ==> rs[k].uri !in g.instances)
    && (forall k :: 0 <= k < j ==> rs[i].uri !in groups[k].instances)
  }

  /** The load balancer group of a list of resources, if any of its instances is in one. */
  ghost predicate IsGroupOf(groups: seq<LbGroup>, rs: seq<ResourceValue>, group: Option<LbGroup>) {
    if group.None? then forall r, g :: r in rs && r.kind == InstanceKind && g in groups ==> r.uri !in g.instances
    else exists i, j :: FoundAt(groups, rs, i, j) && group.value == groups[j]
  }

  lemma {:induction false} FindGroupExactly(groups: seq<LbGroup>, uri: string)
    ensures var g := FindGroup(groups, uri);
      if g.None? then forall x :: x in groups ==> uri !in x.instances
      else exists j :: 0 <= j < |groups| && g.value == groups[j] && uri in groups[j].instances
                       && forall k :: 0 <= k < j ==> uri !in groups[k].instances
  {
    if groups != [] && uri !in groups[0].instances {
      FindGroupExactly(groups[1..], uri);
      assert groups == [groups[0]] + groups[1..];
      if FindGroup(groups, uri).Some? {
        var j :| 0 <= j < |groups[1..]| && FindGroup(groups, uri).value == groups[1..][j] && uri in groups[1..][j].instances
                 && forall k :: 0 <= k < j ==> uri !in groups[1..][k].instances;
        assert forall k :: 0 <= k < j + 1 ==> uri !in groups[k].instances by {
          assert forall k :: 0 < k < j + 1 ==> groups[k] == groups[1..][k - 1];
        }
        assert groups[j + 1] == groups[1..][j];
      }
    }
  }

  /** The group that is found is that of the first instance that is in any, and there is at most one such group. */
  lemma {:induction false} GroupExactly(groups: seq<LbGroup>, rs: seq<ResourceValue>, group: Option<LbGroup>)
    ensures IsGroupOf(groups, rs, group) <==> group == FirstGroup(groups, rs)
  {
    FirstGroupFound(groups, rs);
    if IsGroupOf(groups, rs, group) {
      OneGroup(groups, rs, group, FirstGroup(groups, rs));
    }
  }

  lemma OneGroup(groups: seq<LbGroup>, rs: seq<ResourceValue>, a: Option<LbGroup>, b: Option<LbGroup>)
    requires IsGroupOf(groups, rs, a) && IsGroupOf(groups, rs, b)
    ensures a == b
  {
    if i, j :| FoundAt(groups, rs, i, j) {
      assert rs[i] in rs && groups[j] in groups;
    }
    if a.Some? && b.Some? {
      var i, j :| FoundAt(groups, rs, i, j) && a.value == groups[j];
      var k, m :| FoundAt(groups, rs, k, m) && b.value == groups[m];
      assert groups[j] in groups && groups[m] in groups;
    }
  }

  lemma {:induction false} FirstGroupFound(groups: seq<LbGroup>, rs: seq<ResourceValue>)
    ensures IsGroupOf(groups, rs, FirstGroup(groups, rs))
  {
    if rs != [] {
      var g := FindGroup(groups, rs[0].uri);
      FindGroupExactly(groups, rs[0].uri);
      assert rs == [rs[0]] + rs[1..];
      if IsInstance(rs[0]) && g.Some? {
        var j :| 0 <= j < |groups| && g.value == groups[j] && rs[0].uri in groups[j].instances
                 && forall k :: 0 <= k < j ==> rs[0].uri !in groups[k].instances;
        assert FoundAt(groups, rs, 0, j);
      } else {
        FirstGroupFound(groups, rs[1..]);
        if i, j :| FoundAt(groups, rs[1..], i, j) && FirstGroup(groups, rs).Some? && FirstGroup(groups, rs).value == groups[j] {
          FoundLater(groups, rs, i, j);
        }
      }
    }
  }

  lemma FoundLater(groups: seq<LbGroup>, rs: seq<ResourceValue>, i: int, j: int)
    requires rs != [] && FoundAt(groups, rs[1..], i, j)
    requires rs[0].kind == InstanceKind ==> forall g :: g in groups ==> rs[0].uri !in g.instances
    ensures FoundAt(groups, rs, i + 1, j)
  {
    assert rs[i + 1] == rs[1..][i];
    assert forall k :: 0 < k < i + 1 ==> rs[k] == rs[1..][k - 1];
  }

  /** What marking does: the database role is added to an instance, nothing else is touched. */
  lemma MarkedExactly(r: ResourceValue)
    ensures var m := MarkDatabase(r);
      && m.uri == r.uri && m.kind == r.kind && m.related == r.related
      && (r.kind != InstanceKind ==> m.props == r.props)
      && (r.kind == InstanceKind ==> m.props.Some? && m.props.value.roles == Roles(r) + {Database} && m.props.value.apps == Apps(r))
      && (r.kind == InstanceKind && r.props.Some? ==>
            m.props.value.hostname == r.props.value.hostname && m.props.value.disks == r.props.value.disks)
  {
  }

  /** An instance with a host name. */
  ghost predicate Named(r: ResourceValue, name: string) {
    r.kind == InstanceKind && r.props.Some? && r.props.value.hostname == name
  }

  /** What discovery depends on: the cloud lookups, taken as functions, and the load balancer groups. */
  datatype Env = Env(discover: string -> seq<ResourceValue>, region: string -> string, sid: string, groups: seq<LbGroup>)
  {
    /** The region of the last instance whose virtual host name is the site name. */
    function RegionOf(rs: seq<ResourceValue>, name: string): string {
      if rs == [] then ""
      else
        var r := rs[|rs| - 1];
        if IsInstance(r) && r.props.Some? && r.props.value.hostname == name then region(r.uri)
        else RegionOf(rs[..|rs| - 1], name)
    }

    /** The region is that of the last instance with the site name as its host name, */
    lemma {:induction false} RegionIs(rs: seq<ResourceValue>, name: string, i: nat)
      requires i < |rs| && Named(rs[i], name) && forall j :: i < j < |rs| ==> !Named(rs[j], name)
      ensures RegionOf(rs, name) == region(rs[i].uri)
    {
      if i < |rs| - 1 {
        assert !Named(rs[|rs| - 1], name);
        RegionIs(rs[..|rs| - 1], name, i);
      }
    }

    /** and empty if there is no such instance. */
    lemma {:induction false} NoRegion(rs: seq<ResourceValue>, name: string)
      requires forall j :: 0 <= j < |rs| ==> !Named(rs[j], name)
      ensures RegionOf(rs, name) == ""
    {
      if rs != [] {
        assert !Named(rs[|rs| - 1], name);
        NoRegion(rs[..|rs| - 1], name);
      }
    }

    function GroupOf(name: string): Option<LbGroup> {
      FirstGroup(groups, discover(name))
    }

    /** The component of a site before its targets are looked at. */
    ghost function Own(name: string): ComponentValue {
      var rs := MarkAll(Dedup(discover(name)));
      ComponentValue(rs, RegionOf(rs, name), [], sid, [])
    }

    ghost predicate JoinsWith(name: string, child: ComponentValue) {
      GroupOf(name).Some? && InGroup(GroupOf(name).value, child.resources)
    }

    /** Adds the component of a target: absorbed when it shares the load balancer group, else a replication site. */
    ghost function Attach(acc: ComponentValue, name: string, child: ComponentValue): ComponentValue {
      if JoinsWith(name, child) then
        acc.(resources := Dedup(acc.resources + child.resources),
             sites := acc.sites + child.sites,
             haHosts := acc.haHosts + GroupOf(name).value.instances)
      else
        acc.(sites := acc.sites + [SiteValue(child, name)])
    }

    /** The component of a site after its first `n` targets. */
    ghost function BuildUpTo(s: Replica, n: nat): ComponentValue
      requires n <= |s.targets|
      decreases s, n
    {
      if n == 0 then Own(s.name) else Attach(BuildUpTo(s, n - 1), s.name, Build(s.targets[n - 1]))
    }

    ghost function Build(s: Replica): ComponentValue
      decreases s, |s.targets| + 1
    {
      BuildUpTo(s, |s.targets|)
    }

    /** Whether the component of a target is absorbed by the component of the site. */
    ghost predicate Joins(s: Replica, i: nat)
      requires i < |s.targets|
    {
      JoinsWith(s.name, Build(s.targets[i]))
    }

    ghost function SiteUris(s: Replica): set<string> {
      Uris(discover(s.name))
    }

    // ----- where each site ends up --------------------------------------------

    /** Whether the site at a path is absorbed into the site above it. */
    ghost predicate Contracted(s: Replica, p: Path)
      requires ValidPath(s, p)
    {
      p != [] && (ParentValid(s, p); Joins(At(s, Parent(p)), p[|p| - 1]))
    }

    /** The site whose component the site at a path lands in: the nearest one at or above it that is not absorbed. */
    ghost function Head(s: Replica, p: Path): Path
      requires ValidPath(s, p)
      decreases |p|
    {
      if Contracted(s, p) then ParentValid(s, p); Head(s, Parent(p)) else p
    }

    ghost predicate IsHead(s: Replica, p: Path) {
      ValidPath(s, p) && !Contracted(s, p)
    }

    /** The URIs discovered for those of the given sites that land in the component of `h`. */
    ghost function MemberUris(s: Replica, ps: seq<Path>, h: Path): set<string> {
      set p, u | p in ps && ValidPath(s, p) && Head(s, p) == h && u in SiteUris(At(s, p)) :: u
    }

    /** The marked entries of those of the given sites that land in the component of `h`. */
    ghost function MemberEntries(s: Replica, ps: seq<Path>, h: Path): seq<ResourceValue> {
      if ps == [] then [] else MemberEntries(s, ps[..|ps| - 1], h) + EntriesOf(s, ps[|ps| - 1], h)
    }

    ghost function EntriesOf(s: Replica, p: Path, h: Path): seq<ResourceValue> {
      if ValidPath(s, p) && Head(s, p) == h then Own(At(s, p).name).resources else []
    }

    /** The name of the replica-tree parent of a site, empty for the root. */
    ghost function SourceName(s: Replica, h: Path): string
      requires ValidPath(s, h)
    {
      if h == [] then "" else ParentValid(s, h); At(s, Parent(h)).name
    }

    /** Looking at a path from the site above shifts the path by one level. */
    lemma {:induction false} HeadShift(s: Replica, i: nat, q: Path)
      requires i < |s.targets| && ValidPath(s.targets[i], q)
      ensures ValidPath(s, [i] + q) && At(s, [i] + q) == At(s.targets[i], q)
      ensures Head(s, [i] + q)
           == var h := Head(s.targets[i], q);
              if h != [] then [i] + h else if Joins(s, i) then [] else [i]
      ensures Contracted(s, [i] + q) <==> if q == [] then Joins(s, i) else Contracted(s.targets[i], q)
      decreases |q|
    {
      assert ([i] + q)[1..] == q;
      ParentValid(s, [i] + q);
      if q == [] {
        assert [i] + q == [i] && Parent([i]) == [];
      } else {
        ParentValid(s.targets[i], q);
        assert Parent([i] + q) == [i] + Parent(q);
        HeadShift(s, i, Parent(q));
      }
    }
  }

  ghost predicate ValidPath(s: Replica, p: Path)
    decreases |p|
  {
    p == [] || (p[0] < |s.targets| && ValidPath(s.targets[p[0]], p[1..]))
  }

  ghost function At(s: Replica, p: Path): Replica
    requires ValidPath(s, p)
    decreases |p|
  {
    if p == [] then s else At(s.targets[p[0]], p[1..])
  }

  function Parent(p: Path): Path
    requires p != []
  {
    p[..|p| - 1]
  }

  lemma {:induction false} ParentValid(s: Replica, p: Path)
    requires ValidPath(s, p) && p != []
    ensures ValidPath(s, Parent(p)) && p[|p| - 1] < |At(s, Parent(p)).targets|
    ensures At(s, p) == At(s, Parent(p)).targets[p[|p| - 1]]
    decreases |p|
  {
    if |p| > 1 {
      ParentValid(s.targets[p[0]], p[1..]);
      assert Parent(p)[1..] == Parent(p[1..]);
    }
  }

  function Below(i: nat, ps: seq<Path>): (out: seq<Path>)
    ensures |out| == |ps| && forall k :: 0 <= k < |ps| ==> out[k] == [i] + ps[k]
  {
    seq(|ps|, k requires 0 <= k < |ps| => [i] + ps[k])
  }

  /** All sites of the first `n` subtrees of a replica tree, root first. */
  function PathsUpTo(s: Replica, n: nat): seq<Path>
    requires n <= |s.targets|
    decreases s, n
  {
    if n == 0 then [[]] else PathsUpTo(s, n - 1) + Below(n - 1, Paths(s.targets[n - 1]))
  }

  function Paths(s: Replica): seq<Path>
    decreases s, |s.targets| + 1
  {
    PathsUpTo(s, |s.targets|)
  }

  /** The components of a component tree, each with its source site, root first. */
  function Flat(site: SiteValue): seq<SiteValue>
    decreases site
  {
    [site] + FlatAll(site.component.sites)
  }

  function FlatAll(sites: seq<SiteValue>): seq<SiteValue>
    decreases sites
  {
    if sites == [] then [] else FlatAll(sites[..|sites| - 1]) + Flat(sites[|sites| - 1])
  }

  lemma {:induction false} FlatAllConcat(a: seq<SiteValue>, b: seq<SiteValue>)
    ensures FlatAll(a + b) == FlatAll(a) + FlatAll(b)
  {
    if b == [] {
      assert a + b == a;
    } else {
      assert (a + b)[..|a + b| - 1] == a + b[..|b| - 1];
      FlatAllConcat(a, b[..|b| - 1]);
    }
  }
}

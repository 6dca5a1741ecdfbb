/**
 * The load balancer groups among the database resources
 * (internal/system/discovery.go, discoverSAPSystems).
 */
module LoadBalancers {
  import opened Common
  import opened Resources
  import opened Topology

  /** The last resource with a URI, as a map filled in list order would hold it. */
  ghost function Last(vs: seq<ResourceValue>, uri: string): Option<ResourceValue> {
    if vs == [] then None
    else if vs[|vs| - 1].uri == uri then Some(vs[|vs| - 1])
    else Last(vs[..|vs| - 1], uri)
  }

  ghost predicate HasKind(vs: seq<ResourceValue>, uri: string, kind: Kind) {
    Last(vs, uri).Some? && Last(vs, uri).value.kind == kind
  }

  /** The instances among some URIs, in order. */
  ghost function InstancesAmong(vs: seq<ResourceValue>, uris: seq<string>): seq<string> {
    if uris == [] then []
    else
      var u := uris[|uris| - 1];
      InstancesAmong(vs, uris[..|uris| - 1]) + if HasKind(vs, u, InstanceKind) then [u] else []
  }

  /** The instances behind a load balancer: those it names, and those of the instance groups it names. */
  ghost function Members(vs: seq<ResourceValue>, related: seq<string>): seq<string> {
    if related == [] then []
    else
      var u := related[|related| - 1];
      Members(vs, related[..|related| - 1]) +
      if HasKind(vs, u, InstanceKind) then [u]
      else if HasKind(vs, u, InstanceGroupKind) then InstancesAmong(vs, Last(vs, u).value.related)
      else []
  }

  /** One group for every backend service, in order. */
  ghost function Groups(vs: seq<ResourceValue>, among: seq<ResourceValue>): seq<LbGroup> {
    if among == [] then []
    else
      var lb := among[|among| - 1];
      Groups(vs, among[..|among| - 1]) +
      if lb.kind == BackendServiceKind then [LbGroup(lb.uri, Members(vs, lb.related))] else []
  }

  lemma {:induction false} InstancesAmongExactly(vs: seq<ResourceValue>, uris: seq<string>, u: string)
    ensures u in InstancesAmong(vs, uris) <==> u in uris && HasKind(vs, u, InstanceKind)
  {
    if uris != [] {
      var init := uris[..|uris| - 1];
      InstancesAmongExactly(vs, init, u);
      assert uris == init + [uris[|uris| - 1]];
    }
  }

  /**
   * A URI is in the group of a load balancer exactly when it is an instance that
   * the load balancer reaches directly or through one instance group.
   */
  lemma {:induction false} MembersExactly(vs: seq<ResourceValue>, related: seq<string>, u: string)
    ensures u in Members(vs, related) <==>
      && HasKind(vs, u, InstanceKind)
      && (u in related || exists g :: g in related && HasKind(vs, g, InstanceGroupKind) && u in Last(vs, g).value.related)
  {
    if related != [] {
      var init, x := related[..|related| - 1], related[|related| - 1];
      MembersExactly(vs, init, u);
      assert related == init + [x];
      if HasKind(vs, x, InstanceGroupKind) {
        InstancesAmongExactly(vs, Last(vs, x).value.related, u);
      }
    }
  }

  /** The lookup map from URI to resource. */
  ghost predicate ByUri(byUri: map<string, Resource>, res: seq<Resource>)
    reads Elements(res), PropsOf(Elements(res)), byUri.Values, PropsOf(byUri.Values)
  {
    forall u :: if u in byUri then Last(Views(res), u) == Some(View(byUri[u])) else Last(Views(res), u) == None
  }

  method IndexByUri(res: seq<Resource>) returns (byUri: map<string, Resource>)
    ensures ByUri(byUri, res) && Views(res) == old(Views(res))
  {
    byUri := map[];
    TakeAll(res);
    for i := 0 to |res|
      invariant ByUri(byUri, res[..i])
    {
      assert Views(res[..i + 1])[..i] == Views(res[..i]);
      byUri := byUri[res[i].uri := res[i]];
    }
  }

  /** Collects the instances behind one load balancer. */
  method CollectMembers(res: seq<Resource>, byUri: map<string, Resource>, related: seq<string>) returns (instances: seq<string>)
    requires ByUri(byUri, res)
    ensures instances == Members(Views(res), related)
    ensures ByUri(byUri, res) && Views(res) == old(Views(res))
  {
    ghost var vs := Views(res);
    instances := [];
    TakeAll(related);
    for i := 0 to |related|
      invariant ByUri(byUri, res) && Views(res) == vs
      invariant instances == Members(vs, related[..i])
    {
      assert related[..i + 1][..i] == related[..i];
      var u := related[i];
      if u in byUri && byUri[u].kind == InstanceKind {
        instances := instances + [u];
      } else if u in byUri && byUri[u].kind == InstanceGroupKind {
        var group := byUri[u].related;
        ghost var before := instances;
        TakeAll(group);
        for j := 0 to |group|
          invariant ByUri(byUri, res) && Views(res) == vs
          invariant instances == before + InstancesAmong(vs, group[..j])
        {
          assert group[..j + 1][..j] == group[..j];
          if group[j] in byUri && byUri[group[j]].kind == InstanceKind {
            instances := instances + [group[j]];
          }
        }
      }
    }
  }

  /** The load balancer groups of a list of resources. */
  method FindGroups(res: seq<Resource>) returns (groups: seq<LbGroup>)
    ensures groups == Groups(Views(res), Views(res))
  {
    ghost var vs := Views(res);
    var byUri := IndexByUri(res);
    groups := [];
    TakeAll(vs);
    for i := 0 to |res|
      invariant ByUri(byUri, res) && Views(res) == vs
      invariant groups == Groups(vs, vs[..i])
    {
      assert vs[..i + 1][..i] == vs[..i];
      if res[i].kind == BackendServiceKind {
        var instances := CollectMembers(res, byUri, res[i].related);
        groups := groups + [LbGroup(res[i].uri, instances)];
      }
    }
  }

  // ----- what the groups are -------------------------------------------------

  /** A URI stands for the last resource that has it. */
  lemma {:induction false} LastExactly(vs: seq<ResourceValue>, uri: string)
    ensures Last(vs, uri).None? <==> forall v :: v in vs ==> v.uri != uri
    ensures forall i :: 0 <= i < |vs| && vs[i].uri == uri && (forall j :: i < j < |vs| ==> vs[j].uri != uri) ==>
      Last(vs, uri) == Some(vs[i])
  {
    if vs != [] {
      var init, v := vs[..|vs| - 1], vs[|vs| - 1];
      assert vs == init + [v];
      if v.uri != uri {
        LastExactly(init, uri);
        assert forall j :: 0 <= j < |init| ==> vs[j] == init[j];
      }
    }
  }

  lemma {:induction false} InstancesInOrder(vs: seq<ResourceValue>, a: seq<string>, b: seq<string>)
    ensures InstancesAmong(vs, a + b) == InstancesAmong(vs, a) + InstancesAmong(vs, b)
  {
    if b == [] {
      assert a + b == a;
    } else {
      assert (a + b)[..|a + b| - 1] == a + b[..|b| - 1];
      InstancesInOrder(vs, a, b[..|b| - 1]);
    }
  }

  lemma MembersSnoc(vs: seq<ResourceValue>, a: seq<string>, u: string)
    ensures Members(vs, a + [u]) == Members(vs, a) + Members(vs, [u])
    ensures Members(vs, [u])
         == if HasKind(vs, u, InstanceKind) then [u]
            else if HasKind(vs, u, InstanceGroupKind) then InstancesAmong(vs, Last(vs, u).value.related)
            else []
  {
    assert (a + [u])[..|a|] == a && [u][..0] == [];
  }

  /** The members are listed in the order of the references. */
  lemma {:induction false} MembersInOrder(vs: seq<ResourceValue>, a: seq<string>, b: seq<string>)
    ensures Members(vs, a + b) == Members(vs, a) + Members(vs, b)
  {
    if b == [] {
      assert a + b == a;
    } else {
      var init, u := b[..|b| - 1], b[|b| - 1];
      assert b == init + [u] && a + b == a + init + [u];
      MembersInOrder(vs, a, init);
      MembersSnoc(vs, a + init, u);
      MembersSnoc(vs, init, u);
      Regroup(Members(vs, a), Members(vs, init), Members(vs, [u]));
    }
  }

  /** There is a group for every backend service, in the order of the services: `at` says where they are. */
  lemma {:induction false} GroupsExactly(vs: seq<ResourceValue>, among: seq<ResourceValue>) returns (at: seq<nat>)
    ensures |at| == |Groups(vs, among)| && forall j, k :: 0 <= j < k < |at| ==> at[j] < at[k]
    ensures forall k :: 0 <= k < |at| ==> IsGroup(vs, among, at[k], Groups(vs, among)[k])
    ensures forall i :: 0 <= i < |among| && among[i].kind == BackendServiceKind ==> i in at
  {
    at := [];
    if among != [] {
      var init, lb := among[..|among| - 1], among[|among| - 1];
      at := GroupsExactly(vs, init);
      assert among == init + [lb];
      forall k | 0 <= k < |at| ensures IsGroup(vs, among, at[k], Groups(vs, init)[k]) {
        GroupStays(vs, init, lb, at[k], Groups(vs, init)[k]);
      }
      if lb.kind == BackendServiceKind {
        at := at + [|init|];
      }
    }
  }

  /** A group is that of a backend service. */
  ghost predicate IsGroup(vs: seq<ResourceValue>, among: seq<ResourceValue>, i: nat, g: LbGroup) {
    && i < |among| && among[i].kind == BackendServiceKind
    && g.lb == among[i].uri && g.instances == Members(vs, among[i].related)
  }

  lemma GroupStays(vs: seq<ResourceValue>, init: seq<ResourceValue>, lb: ResourceValue, i: nat, g: LbGroup)
    requires IsGroup(vs, init, i, g)
    ensures IsGroup(vs, init + [lb], i, g)
  {
    assert (init + [lb])[i] == init[i];
  }
}

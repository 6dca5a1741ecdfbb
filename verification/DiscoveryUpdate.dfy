/**
 * Updates of a component tree in place (internal/system/discovery.go): adding
 * the host's resources to the component that contains the host, and clearing
 * local-only fields with an explicit stack before the tree is sent.
 */
module DiscoveryUpdate {
  import opened Common
  import opened Resources
  import opened Topology
  import opened DiscoveryTree
  import opened HostResources
  import opened AppRecords

  // ----- the tree below a component -----------------------------------------

  ghost function CompsBelow(ts: seq<Shape>): set<Component> {
    set i, c | 0 <= i < |ts| && c in Comps(ts[i]) :: c
  }

  ghost function Comps(t: Shape): set<Component> {
    {t.comp} + CompsBelow(t.kids)
  }

  ghost function SitesBelow(ts: seq<Shape>): set<ReplicationSite> {
    set i, s | 0 <= i < |ts| && s in Sites(ts[i]) :: s
  }

  ghost function Sites(t: Shape): set<ReplicationSite> {
    {t.site} + SitesBelow(t.kids)
  }

  /** The replication sites below a component are linked as the shapes say. */
  ghost predicate Linked(comp: Component, kids: seq<Shape>)
    reads ({comp} + CompsBelow(kids))`sites, SitesBelow(kids)`component
    decreases kids, 2
  {
    comp.sites == SitesOf(kids) && LinkedAll(kids)
  }

  ghost predicate LinkedAll(kids: seq<Shape>)
    reads CompsBelow(kids)`sites, SitesBelow(kids)`component
    decreases kids, 1
  {
    forall i :: 0 <= i < |kids| ==>
      (assert Sites(kids[i]) <= SitesBelow(kids) && Comps(kids[i]) <= CompsBelow(kids); LinkedSite(kids[i]))
  }

  ghost predicate LinkedSite(t: Shape)
    reads Comps(t)`sites, Sites(t)`component
    decreases t
  {
    t.site.component == t.comp && Linked(t.comp, t.kids)
  }

  /** No component occurs twice in the tree. */
  ghost predicate TreeApart(comp: Component, kids: seq<Shape>)
    decreases kids
  {
    && comp !in CompsBelow(kids)
    && (forall i, j :: 0 <= i < j < |kids| ==> Comps(kids[i]) !! Comps(kids[j]))
    && (forall i :: 0 <= i < |kids| ==> TreeApart(kids[i].comp, kids[i].kids))
  }

  ghost function Size(ts: seq<Shape>): nat {
    if ts == [] then 0 else Size(ts[..|ts| - 1]) + 1 + Size(ts[|ts| - 1].kids)
  }

  // ----- clearing disk device names -----------------------------------------

  /** The properties objects of the resources of some components. */
  ghost function PropsIn(comps: set<Component>): set<InstanceProperties>
    reads comps, set c, r | c in comps && r in c.resources :: r
  {
    set c, r | c in comps && r in c.resources && r.props != null :: r.props
  }

  /** Clears the disk device names of one component. */
  method ClearComponent(comp: Component, ghost props: set<InstanceProperties>)
    requires props == PropsIn({comp})
    modifies props`disks
    ensures forall p :: p in props ==> p.disks == []
  {
    for i := 0 to |comp.resources|
      invariant forall k :: 0 <= k < i && comp.resources[k].props != null ==> comp.resources[k].props.disks == []
    {
      var res := comp.resources[i];
      if res.props != null {
        assert res in comp.resources;
        res.props.disks := [];
      }
    }
  }

  // ----- the walk -----------------------------------------------------------

  ghost function Reach(comp: Component, kids: seq<Shape>): set<Component> {
    {comp} + CompsBelow(kids)
  }

  /** The components still to be visited: those on the stack and those below them. */
  ghost function Pending(comps: seq<Component>, below: seq<seq<Shape>>): set<Component>
    requires |comps| == |below|
  {
    if comps == [] then {}
    else Pending(comps[..|comps| - 1], below[..|below| - 1]) + Reach(comps[|comps| - 1], below[|below| - 1])
  }

  ghost function PendingSites(below: seq<seq<Shape>>): set<ReplicationSite> {
    if below == [] then {} else PendingSites(below[..|below| - 1]) + SitesBelow(below[|below| - 1])
  }

  /** How many components are still to be visited. */
  ghost function Work(below: seq<seq<Shape>>): nat {
    if below == [] then 0 else Work(below[..|below| - 1]) + 1 + Size(below[|below| - 1])
  }

  ghost predicate StackLinked(comps: seq<Component>, below: seq<seq<Shape>>)
    requires |comps| == |below|
    reads Pending(comps, below)`sites, PendingSites(below)`component
  {
    comps == [] || (StackLinked(comps[..|comps| - 1], below[..|below| - 1]) && Linked(comps[|comps| - 1], below[|below| - 1]))
  }

  lemma Push(comps: seq<Component>, below: seq<seq<Shape>>, c: Component, kids: seq<Shape>)
    requires |comps| == |below|
    ensures Pending(comps + [c], below + [kids]) == Pending(comps, below) + Reach(c, kids)
    ensures Work(below + [kids]) == Work(below) + 1 + Size(kids)
    ensures StackLinked(comps + [c], below + [kids]) <==> StackLinked(comps, below) && Linked(c, kids)
  {
    assert (comps + [c])[..|comps|] == comps && (below + [kids])[..|below|] == below;
  }

  lemma CompsBelowSnoc(ts: seq<Shape>, t: Shape)
    ensures CompsBelow(ts + [t]) == CompsBelow(ts) + Comps(t)
    ensures Size(ts + [t]) == Size(ts) + 1 + Size(t.kids)
  {
    var left := CompsBelow(ts + [t]);
    forall x | x in CompsBelow(ts) ensures x in left {
      var i :| 0 <= i < |ts| && x in Comps(ts[i]);
      assert x in Comps((ts + [t])[i]);
    }
    forall x | x in Comps(t) ensures x in left {
      assert x in Comps((ts + [t])[|ts|]);
    }
    assert (ts + [t])[..|ts|] == ts;
  }

  /** The stack after the first `j` sites of a component were pushed. */
  ghost predicate Pushed(stack0: seq<Component>, below0: seq<seq<Shape>>, kids: seq<Shape>, j: nat,
                         stack: seq<Component>, below: seq<seq<Shape>>)
    requires |stack0| == |below0| && j <= |kids|
  {
    && |stack| == |below|
    && Pending(stack, below) == Pending(stack0, below0) + CompsBelow(kids[..j])
    && Work(below) == Work(below0) + Size(kids[..j])
    && PendingSites(below) <= PendingSites(below0) + SitesBelow(kids)
  }

  /** Pushing one more site of a component. */
  lemma PushStep(stack0: seq<Component>, below0: seq<seq<Shape>>, kids: seq<Shape>, j: nat,
                 stack: seq<Component>, below: seq<seq<Shape>>)
    requires |stack0| == |below0| && j < |kids| && Pushed(stack0, below0, kids, j, stack, below)
    ensures Pushed(stack0, below0, kids, j + 1, stack + [kids[j].comp], below + [kids[j].kids])
  {
    CompsIn(kids, j);
    PushSitesBelow(below, kids[j].kids);
    Push(stack, below, kids[j].comp, kids[j].kids);
    TakeSnoc(kids, j);
    CompsBelowSnoc(kids[..j], kids[j]);
  }

  lemma PushSitesBelow(below: seq<seq<Shape>>, kids: seq<Shape>)
    ensures PendingSites(below + [kids]) == PendingSites(below) + SitesBelow(kids)
  {
    assert (below + [kids])[..|below|] == below;
  }

  /** Pushes the components directly below a component. */
  method PushSites(comp: Component, stack: seq<Component>, ghost kids: seq<Shape>, ghost below: seq<seq<Shape>>)
    returns (stack': seq<Component>, ghost below': seq<seq<Shape>>)
    requires Linked(comp, kids) && |stack| == |below| && StackLinked(stack, below)
    ensures |stack'| == |below'| && StackLinked(stack', below')
    ensures Pending(stack', below') == Pending(stack, below) + CompsBelow(kids)
    ensures Work(below') == Work(below) + Size(kids)
    ensures PendingSites(below') <= PendingSites(below) + SitesBelow(kids)
  {
    stack', below' := stack, below;
    TakeAll(kids);
    for j := 0 to |comp.sites|
      invariant comp.sites == SitesOf(kids) && LinkedAll(kids)
      invariant Pushed(stack, below, kids, j, stack', below') && StackLinked(stack', below')
    {
      assert LinkedSite(kids[j]);
      PushStep(stack, below, kids, j, stack', below');
      Push(stack', below', kids[j].comp, kids[j].kids);
      stack', below' := stack' + [comp.sites[j].component], below' + [kids[j].kids];
    }
  }

  ghost function Layers(app: Component?, db: Component?, appKids: seq<Shape>, dbKids: seq<Shape>): set<Component> {
    (if app == null then {} else Reach(app, appKids)) + (if db == null then {} else Reach(db, dbKids))
  }

  /** Whether no resource of a component has disk device names left. */
  ghost predicate Cleared(c: Component)
    reads c, Elements(c.resources), PropsOf(Elements(c.resources))
  {
    forall r :: r in c.resources && r.props != null ==> r.props.disks == []
  }

  /**
   * Clears the disk device names of every component reachable from the
   * application and the database layer, and changes nothing else.
   */
  method ClearDiskNames(app: Component?, db: Component?, ghost appKids: seq<Shape>, ghost dbKids: seq<Shape>)
    requires app != null ==> Linked(app, appKids)
    requires db != null ==> Linked(db, dbKids)
    modifies PropsIn(Layers(app, db, appKids, dbKids))`disks
    ensures forall c :: c in Layers(app, db, appKids, dbKids) ==> Cleared(c)
  {
    var comps: seq<Component> := [];
    ghost var below: seq<seq<Shape>> := [];
    if app != null {
      Push(comps, below, app, appKids);
      comps, below := comps + [app], below + [appKids];
    }
    if db != null {
      Push(comps, below, db, dbKids);
      comps, below := comps + [db], below + [dbKids];
    }
    ghost var all := Layers(app, db, appKids, dbKids);
    assert Pending(comps, below) == all;
    ClearStack(comps, below, all, PendingSites(below), PropsIn(all));
  }

  /** Visits the components on a stack and all components below them. */
  method ClearStack(stack: seq<Component>, ghost below0: seq<seq<Shape>>,
                    ghost all: set<Component>, ghost sites: set<ReplicationSite>, ghost props: set<InstanceProperties>)
    requires |stack| == |below0| && StackLinked(stack, below0) && Pending(stack, below0) == all
    requires PendingSites(below0) == sites && PropsIn(all) == props
    modifies props`disks
    ensures forall c :: c in all ==> Cleared(c)
  {
    var comps := stack;
    ghost var below := below0;
    while |comps| > 0
      invariant |comps| == |below| && StackLinked(comps, below) && Pending(comps, below) <= all && PendingSites(below) <= sites
      invariant PropsIn(all) == props
      invariant forall c :: c in all ==> c in Pending(comps, below) || Cleared(c)
      decreases Work(below)
    {
      comps, below := VisitTop(comps, below, all, sites, props);
    }
  }

  /** Visits the top component of the stack: its sites are pushed, then it is cleared. */
  method VisitTop(stack: seq<Component>, ghost below: seq<seq<Shape>>,
                  ghost all: set<Component>, ghost sites: set<ReplicationSite>, ghost props: set<InstanceProperties>)
    returns (comps: seq<Component>, ghost below': seq<seq<Shape>>)
    requires |stack| == |below| && |stack| > 0 && StackLinked(stack, below)
    requires Pending(stack, below) <= all && PendingSites(below) <= sites && PropsIn(all) == props
    modifies props`disks
    ensures |comps| == |below'| && StackLinked(comps, below') && Work(below') < Work(below)
    ensures Pending(comps, below') <= all && PendingSites(below') <= sites && PropsIn(all) == props
    ensures forall c :: c in all && old(Cleared(c)) ==> Cleared(c)
    ensures forall c :: c in Pending(stack, below) ==> c in Pending(comps, below') || Cleared(c)
  {
    var comp := stack[|stack| - 1];
    ghost var kids := below[|below| - 1];
    comps, below' := PushSites(comp, stack[..|stack| - 1], kids, below[..|below| - 1]);
    ClearAndKeep(comp, comps, below', all, sites, props);
  }

  /** Clears one component. The stack stays linked and cleared components stay cleared. */
  method ClearAndKeep(comp: Component, ghost comps: seq<Component>, ghost below: seq<seq<Shape>>,
                      ghost all: set<Component>, ghost sites: set<ReplicationSite>, ghost props: set<InstanceProperties>)
    requires comp in all && |comps| == |below| && StackLinked(comps, below)
    requires Pending(comps, below) <= all && PendingSites(below) <= sites && PropsIn(all) == props
    modifies props`disks
    ensures StackLinked(comps, below) && PropsIn(all) == props
    ensures Cleared(comp) && forall c :: c in all && old(Cleared(c)) ==> Cleared(c)
  {
    ClearComponent(comp, PropsIn({comp}));
  }

  // ----- adding the resources of the host -----------------------------------

  /** The host: how instance names are read from URIs, and the name of the host's instance. */
  datatype Host = Host(instanceOf: string -> string, name: string)
  {
    ghost predicate In(res: seq<Resource>) {
      exists r :: r in res && instanceOf(r.uri) == name
    }

    /** The components that receive the host's resources: on every way down, the first one that contains the host. */
    ghost function Chosen(was: map<Component, seq<Resource>>, comp: Component, kids: seq<Shape>): set<Component>
      decreases kids, 1
    {
      if comp in was && In(was[comp]) then {comp} else ChosenBelow(was, kids)
    }

    ghost function ChosenBelow(was: map<Component, seq<Resource>>, kids: seq<Shape>): set<Component>
      decreases kids, 0
    {
      set i, c | 0 <= i < |kids| && c in Chosen(was, kids[i].comp, kids[i].kids) :: c
    }
  }

  /**
   * Removing duplicates from part of a pool of resources keeps the pool coherent
   * and changes no properties objects but those of that part.
   */
  method RemoveDuplicatesIn(res: seq<Resource>, ghost pool: set<Resource>, ghost touched: set<InstanceProperties>,
                            ghost before: Snapshot)
    returns (out: seq<Resource>)
    requires Elements(res) <= pool && Coherent(pool) && PropsOf(Elements(res)) <= touched && before == Take(pool)
    modifies Elements(res), touched
    ensures Coherent(pool) && PropsOf(Elements(res)) <= touched
    ensures Removed(before, Take(pool), pool, res, out)
  {
    ghost var was := Take(Elements(res));
    TakeWhole(pool);
    ViewsBefore(pool, res);
    out := MergePart(res, pool, touched, before, was);
    RemovedFromPool(was, before, pool, res, out);
  }

  method MergePart(res: seq<Resource>, ghost pool: set<Resource>, ghost touched: set<InstanceProperties>,
                   ghost before: Snapshot, ghost was: Snapshot)
    returns (out: seq<Resource>)
    requires Elements(res) <= pool && Coherent(pool) && PropsOf(Elements(res)) <= touched
    requires before == Take(pool) && was == Take(Elements(res)) && Whole(before, pool)
    requires Agree(was, before, res) && before.Views(res) == Views(res)
    requires forall p :: p in was.values && p in before.values ==> was.values[p] == before.values[p]
    modifies Elements(res), touched
    ensures Coherent(pool) && PropsOf(Elements(res)) <= touched
    ensures out == AppendNew([], res, UriOf) && was.Covers(res) && Stored(was, res, out)
    ensures AllUnite(Views(out), before.Views(res)) && AllKeepRecords(Views(out), before.Views(res))
    ensures OnlyMerged(before, pool, out)
  {
    out := MergeBeside(res, pool, (set p | p in before.values && p !in was.values), before, was, before.Views(res));
    PropsFromList(was, res, out);
    StillCoherent(before, was, pool, res);
    NothingElse(before, was, pool, res, out);
  }

  /** Removing duplicates leaves other resources and the given other properties as they are. */
  method MergeBeside(res: seq<Resource>, ghost pool: set<Resource>, ghost others: set<InstanceProperties>,
                     ghost before: Snapshot, ghost was: Snapshot, ghost vs: seq<ResourceValue>)
    returns (out: seq<Resource>)
    requires Coherent(Elements(res)) && was == Take(Elements(res)) && others !! PropsOf(Elements(res)) && vs == Views(res)
    requires before.related.Keys == before.props.Keys == pool
    requires forall r :: r in pool ==> r.related == before.related[r] && r.props == before.props[r]
    requires forall p :: p in others ==> p in before.values && PropsView(p) == before.values[p]
    modifies Elements(res), PropsOf(Elements(res))
    ensures out == AppendNew([], res, UriOf) && was.Covers(res) && Stored(was, res, out) && Untouched(was, res, out)
    ensures AllUnite(Views(out), vs) && AllKeepRecords(Views(out), vs)
    ensures forall r :: r in pool && r !in res ==> r.related == before.related[r] && r.props == before.props[r]
    ensures forall p :: p in others ==> PropsView(p) == before.values[p]
  {
    out := RemoveDuplicates(res);
  }

  lemma StillCoherent(before: Snapshot, was: Snapshot, pool: set<Resource>, res: seq<Resource>)
    requires Whole(before, pool) && Agree(was, before, res) && forall r :: r in res ==> r in pool
    requires forall r :: r in pool && r !in res ==> r.props == before.props[r]
    requires forall r :: r in res && r.props != null ==> exists s :: s in res && was.props[s] == r.props && s.uri == r.uri
    ensures Coherent(pool)
  {
    forall r | r in pool && r.props != null
      ensures exists s :: s in pool && before.props[s] == r.props && s.uri == r.uri
    {
      if r !in res {
        assert before.props[r] == r.props;
      } else {
        var s :| s in res && was.props[s] == r.props && s.uri == r.uri;
        assert before.props[s] == r.props;
      }
    }
  }

  lemma NothingElse(before: Snapshot, was: Snapshot, pool: set<Resource>, res: seq<Resource>, out: seq<Resource>)
    requires Whole(before, pool) && Agree(was, before, res) && Untouched(was, res, out)
    requires forall r :: r in pool && r !in res ==> r.related == before.related[r] && r.props == before.props[r]
    requires forall p :: p in before.values && p !in was.values ==> PropsView(p) == before.values[p]
    requires forall p :: p in was.values && p in before.values ==> was.values[p] == before.values[p]
    ensures OnlyMerged(before, pool, out)
  {
  }

  lemma ViewsBefore(pool: set<Resource>, res: seq<Resource>)
    requires Elements(res) <= pool
    ensures Take(pool).Covers(res) && Take(pool).Views(res) == Views(res)
    ensures Agree(Take(Elements(res)), Take(pool), res)
    ensures forall p :: p in Take(pool).values ==> exists x :: x in pool && Take(pool).props[x] == p
    ensures forall p :: p in Take(Elements(res)).values && p in Take(pool).values ==> Take(Elements(res)).values[p] == Take(pool).values[p]
  {
    assert forall r :: r in res ==> r in Elements(res) && r in pool;
    forall i | 0 <= i < |res| ensures Take(pool).Views(res)[i] == Views(res)[i] {
      assert res[i] in res;
    }
  }

  /** After the merge every properties object in the list comes from an entry with the same URI. */
  lemma PropsFromList(was: Snapshot, res: seq<Resource>, out: seq<Resource>)
    requires was.Covers(res) && Stored(was, res, out) && Untouched(was, res, out)
    ensures forall r :: r in res && r.props != null ==> exists s :: s in res && was.props[s] == r.props && s.uri == r.uri
  {
    forall r | r in res && r.props != null
      ensures exists s :: s in res && was.props[s] == r.props && s.uri == r.uri
    {
      if r in out {
        was.FirstPropsFound(res, r.uri);
      } else {
        assert was.props[r] == r.props;
      }
    }
  }

  /** The list of a component after the update. */
  ghost function NewList(h: Host, was: map<Component, seq<Resource>>, chosen: set<Component>, c: Component, host: seq<Resource>)
    : seq<Resource>
    requires c in was
  {
    if c in chosen then AppendNew([], was[c] + host, UriOf) else was[c]
  }

  /** The resources within reach of the update: those of the chosen components, and those of the host if there are any. */
  ghost function Reached(was: map<Component, seq<Resource>>, chosen: set<Component>, host: seq<Resource>): set<Resource> {
    set c, r | c in chosen && c in was && r in was[c] + host :: r
  }

  lemma ReachedMore(was: map<Component, seq<Resource>>, some: set<Component>, all: set<Component>, host: seq<Resource>)
    requires some <= all
    ensures Reached(was, some, host) <= Reached(was, all, host)
  {
  }

  /** The lists below a component before the update, all within a pool of resources. */
  ghost predicate Listed(all: set<Component>, was: map<Component, seq<Resource>>, pool: set<Resource>)
    reads all`resources
  {
    forall c :: c in all ==> c in was && c.resources == was[c] && Elements(was[c]) <= pool
  }

  lemma CompsIn(kids: seq<Shape>, i: nat)
    requires i < |kids|
    ensures Reach(kids[i].comp, kids[i].kids) == Comps(kids[i]) && Comps(kids[i]) <= CompsBelow(kids)
    ensures Sites(kids[i]) <= SitesBelow(kids)
  {
  }

  /** The lists after the first `n` subtrees were visited. */
  ghost predicate UpdatedUpTo(h: Host, was: map<Component, seq<Resource>>, kids: seq<Shape>, n: nat,
                              all: set<Component>, host: seq<Resource>)
    requires n <= |kids| && forall c :: c in all ==> c in was
    reads all`resources
  {
    forall c :: c in all ==>
      c.resources == if c in CompsBelow(kids[..n]) then NewList(h, was, h.ChosenBelow(was, kids), c, host) else was[c]
  }

  lemma {:induction false} ChosenWithin(h: Host, was: map<Component, seq<Resource>>, comp: Component, kids: seq<Shape>)
    ensures h.Chosen(was, comp, kids) <= Reach(comp, kids)
    ensures h.ChosenBelow(was, kids) <= CompsBelow(kids)
    decreases kids
  {
    forall c | c in h.ChosenBelow(was, kids) ensures c in CompsBelow(kids) {
      var i :| 0 <= i < |kids| && c in h.Chosen(was, kids[i].comp, kids[i].kids);
      ChosenWithin(h, was, kids[i].comp, kids[i].kids);
      assert c in Comps(kids[i]);
    }
  }

  /** Within one subtree, the choice for the whole forest is the choice for the subtree. */
  lemma ChosenHere(h: Host, was: map<Component, seq<Resource>>, kids: seq<Shape>, i: nat, c: Component)
    requires i < |kids| && c in Comps(kids[i])
    requires forall i, j :: 0 <= i < j < |kids| ==> Comps(kids[i]) !! Comps(kids[j])
    ensures c in h.ChosenBelow(was, kids) <==> c in h.Chosen(was, kids[i].comp, kids[i].kids)
  {
    if c in h.ChosenBelow(was, kids) {
      var j :| 0 <= j < |kids| && c in h.Chosen(was, kids[j].comp, kids[j].kids);
      ChosenWithin(h, was, kids[j].comp, kids[j].kids);
      assert c in Comps(kids[j]);
    }
  }

  /** The first `n` subtrees have no component in common with the next one. */
  lemma NextApart(kids: seq<Shape>, n: nat)
    requires n < |kids| && forall i, j :: 0 <= i < j < |kids| ==> Comps(kids[i]) !! Comps(kids[j])
    ensures CompsBelow(kids[..n]) !! Comps(kids[n])
    ensures CompsBelow(kids[..n + 1]) == CompsBelow(kids[..n]) + Comps(kids[n])
  {
    TakeSnoc(kids, n);
    CompsBelowSnoc(kids[..n], kids[n]);
  }

  /** The merges so far: the state before all of them, and the components that were reached. */
  datatype Merges = Merges(start: Snapshot, done: set<Component>)
  {
    /** The state is as it should be after more components were reached, if every list had distinct URIs. */
    ghost predicate Keep(more: set<Component>, was: map<Component, seq<Resource>>, host: seq<Resource>, pool: set<Resource>)
      reads pool, PropsOf(pool)
    {
      Lists(start, was, host, pool) ==>
        Sound(start, Take(pool), was, host, pool, done + more) && RecordsSound(start, Take(pool), was, host, pool, done + more)
    }

    ghost function With(more: set<Component>): Merges {
      this.(done := done + more)
    }

    lemma Step(before: Snapshot, more: set<Component>, c: Component, out: seq<Resource>,
               was: map<Component, seq<Resource>>, host: seq<Resource>, pool: set<Resource>)
      requires Lists(start, was, host, pool) ==>
        Sound(start, before, was, host, pool, done + more) && RecordsSound(start, before, was, host, pool, done + more)
      requires c in was && Removed(before, Take(pool), pool, was[c] + host, out)
      ensures Keep(more + {c}, was, host, pool)
    {
      if Lists(start, was, host, pool) {
        SoundStep(start, before, Take(pool), was, host, pool, done + more, c, out);
        RecordsStep(start, before, Take(pool), was, host, pool, done + more, c, out);
        assert done + more + {c} == done + (more + {c});
      }
    }

    /** What `Keep` is worth in the end. */
    lemma Means(more: set<Component>, was: map<Component, seq<Resource>>, host: seq<Resource>, pool: set<Resource>)
      requires Lists(start, was, host, pool) && Keep(more, was, host, pool)
      ensures forall c :: c in more && c in was && start.Covers(was[c] + host) ==>
        var out, vs := Views(AppendNew([], was[c] + host, UriOf)), start.Views(was[c] + host);
        AllUnite(out, vs) && AllKeepRecords(out, vs)
    {
      forall c | c in more && c in was && start.Covers(was[c] + host)
        ensures var out, vs := Views(AppendNew([], was[c] + host, UriOf)), start.Views(was[c] + host);
          AllUnite(out, vs) && AllKeepRecords(out, vs)
      {
        SoundMeans(start, was, host, pool, done + more, c);
        RecordsMean(start, was, host, pool, done + more, c);
      }
    }
  }

  /**
   * Adds the resources of the host to the component that contains the host's
   * instance, looking into the replication sites only where it does not. Changes
   * nothing but the lists of those components, the resources within reach and their properties.
   */
  method AddHostResources(h: Host, site: Component, host: seq<Resource>, ghost kids: seq<Shape>, ghost was: map<Component,
                          seq<Resource>>,
                          ghost all: set<Component>, ghost sites: set<ReplicationSite>,
                          ghost pool: set<Resource>, ghost reached: set<Resource>, ghost touched: set<InstanceProperties>,
                          ghost merges: Merges)
    requires all == Reach(site, kids) && sites == SitesBelow(kids) && Linked(site, kids) && TreeApart(site, kids)
    requires Listed(all, was, pool) && Elements(host) <= pool && Coherent(pool)
    requires Reached(was, h.Chosen(was, site, kids), host) <= reached && PropsOf(reached) <= touched
    requires merges.Keep({}, was, host, pool)
    modifies all`resources, reached, touched
    ensures forall c :: c in all ==> c.resources == NewList(h, was, h.Chosen(was, site, kids), c, host)
    ensures Coherent(pool) && PropsOf(reached) <= touched
    ensures merges.Keep(h.Chosen(was, site, kids), was, host, pool)
    decreases kids, 2
  {
    for i := 0 to |site.resources|
      invariant forall k :: 0 <= k < i ==> h.instanceOf(site.resources[k].uri) != h.name
    {
      var r := site.resources[i];
      var instanceName := h.instanceOf(r.uri);
      if instanceName == h.name {
        assert h.In(was[site]);
        AddHere(h, site, host, kids, was, all, pool, reached, touched, merges);
        return;
      }
    }
    assert !h.In(was[site]);
    AddToSites(h, site, host, kids, was, all, sites, pool, reached, touched, merges);
  }

  /**
   * The update of a whole tree whose lists have distinct URIs: every entry of a
   * component that receives the host's resources unites what that component's and
   * the host's entries said before the update, even if components and host share
   * objects, which are then merged several times.
   */
  method AddHostToTree(h: Host, site: Component, host: seq<Resource>, ghost kids: seq<Shape>, ghost was: map<Component,
                       seq<Resource>>,
                       ghost all: set<Component>, ghost sites: set<ReplicationSite>,
                       ghost pool: set<Resource>, ghost reached: set<Resource>, ghost touched: set<InstanceProperties>)
    requires all == Reach(site, kids) && sites == SitesBelow(kids) && Linked(site, kids) && TreeApart(site, kids)
    requires Listed(all, was, pool) && Elements(host) <= pool && Coherent(pool)
    requires Reached(was, h.Chosen(was, site, kids), host) <= reached && PropsOf(reached) <= touched
    requires was.Keys == all && forall c :: c in all ==> DistinctKeys(was[c], UriOf)
    modifies all`resources, reached, touched
    ensures forall c :: c in all ==> c.resources == NewList(h, was, h.Chosen(was, site, kids), c, host)
    ensures forall c :: c in all && c !in h.Chosen(was, site, kids) ==> c.resources == was[c]
    ensures forall c :: c in h.Chosen(was, site, kids) ==>
      && c in all && Grows(was[c], host, c.resources)
      && AllUnite(Views(c.resources), old(Views(was[c] + host)))
      && AllKeepRecords(Views(c.resources), old(Views(was[c] + host)))
  {
    ghost var start, chosen := Take(pool), h.Chosen(was, site, kids);
    ghost var merges := Merges(start, {});
    StartMerges(start, all, was, host, pool);
    ChosenWithin(h, was, site, kids);
    forall c | c in chosen ensures start.Covers(was[c] + host) && start.Views(was[c] + host) == Views(was[c] + host) {
      ViewsBefore(pool, was[c] + host);
    }
    ListsGrow(h, was, chosen, host);
    AddHostResources(h, site, host, kids, was, all, sites, pool, reached, touched, merges);
    merges.Means(chosen, was, host, pool);
  }

  /** The components that are not chosen keep their lists, and those of the others grow. */
  lemma ListsGrow(h: Host, was: map<Component, seq<Resource>>, chosen: set<Component>, host: seq<Resource>)
    requires chosen <= was.Keys && forall c :: c in was ==> DistinctKeys(was[c], UriOf)
    ensures forall c :: c in was && c !in chosen ==> NewList(h, was, chosen, c, host) == was[c]
    ensures forall c :: c in chosen ==> Grows(was[c], host, NewList(h, was, chosen, c, host))
  {
    forall c | c in chosen ensures Grows(was[c], host, NewList(h, was, chosen, c, host)) {
      HostListGrows(was[c], host);
    }
  }

  lemma StartLists(all: set<Component>, was: map<Component, seq<Resource>>, host: seq<Resource>, pool: set<Resource>)
    requires Coherent(pool) && Elements(host) <= pool
    requires was.Keys == all && forall c :: c in all ==> DistinctKeys(was[c], UriOf) && Elements(was[c]) <= pool
    ensures Lists(Take(pool), was, host, pool)
  {
    TakeWhole(pool);
    assert forall c, r :: c in was && r in was[c] ==> r in Elements(was[c]);
    assert forall r :: r in host ==> r in Elements(host);
  }

  lemma StartMerges(start: Snapshot, all: set<Component>, was: map<Component, seq<Resource>>, host: seq<Resource>,
                    pool: set<Resource>)
    requires start == Take(pool) && Coherent(pool) && Elements(host) <= pool
    requires was.Keys == all && forall c :: c in all ==> DistinctKeys(was[c], UriOf) && Elements(was[c]) <= pool
    ensures Lists(start, was, host, pool) && Merges(start, {}).Keep({}, was, host, pool)
  {
    StartLists(all, was, host, pool);
    SoundAtFirst(start, was, host, pool);
    RecordsAtFirst(start, was, host, pool);
  }

  /** Visits the replication sites of a component that does not contain the host. */
  method AddToSites(h: Host, site: Component, host: seq<Resource>, ghost kids: seq<Shape>, ghost was: map<Component,
                    seq<Resource>>,
                    ghost all: set<Component>, ghost sites: set<ReplicationSite>,
                    ghost pool: set<Resource>, ghost reached: set<Resource>, ghost touched: set<InstanceProperties>, ghost merges: Merges)
    requires all == Reach(site, kids) && sites == SitesBelow(kids) && Linked(site, kids) && TreeApart(site, kids)
    requires Listed(all, was, pool) && Elements(host) <= pool && Coherent(pool)
    requires !h.In(was[site])
    requires Reached(was, h.ChosenBelow(was, kids), host) <= reached && PropsOf(reached) <= touched
    requires merges.Keep({}, was, host, pool)
    modifies all`resources, reached, touched
    ensures forall c :: c in all ==> c.resources == NewList(h, was, h.Chosen(was, site, kids), c, host)
    ensures Coherent(pool) && PropsOf(reached) <= touched
    ensures merges.Keep(h.Chosen(was, site, kids), was, host, pool)
    decreases kids, 1
  {
    TakeAll(kids);
    for i := 0 to |site.sites|
      invariant site.sites == SitesOf(kids) && LinkedAll(kids)
      invariant UpdatedUpTo(h, was, kids, i, all, host)
      invariant Coherent(pool) && PropsOf(reached) <= touched
      invariant merges.Keep(h.ChosenBelow(was, kids[..i]), was, host, pool)
    {
      AddNext(h, site.sites[i], host, kids, i, was, all, sites, pool, reached, touched, merges);
    }
    ChosenWithin(h, was, site, kids);
  }

  /** Reaching the next subtree after the first ones is reaching one more of them. */
  lemma NextMerges(h: Host, was: map<Component, seq<Resource>>, kids: seq<Shape>, i: nat,
                   host: seq<Resource>, pool: set<Resource>, merges: Merges)
    requires i < |kids| && merges.Keep(h.ChosenBelow(was, kids[..i]), was, host, pool)
    ensures merges.With(h.ChosenBelow(was, kids[..i])).Keep({}, was, host, pool)
    ensures merges.With(h.ChosenBelow(was, kids[..i])).done + h.Chosen(was, kids[i].comp, kids[i].kids)
         == merges.done + h.ChosenBelow(was, kids[..i + 1])
  {
    assert merges.done + h.ChosenBelow(was, kids[..i]) + {} == merges.done + h.ChosenBelow(was, kids[..i]);
    ChosenBelowSnoc(h, was, kids[..i], kids[i]);
    TakeSnoc(kids, i);
  }

  lemma ChosenBelowSnoc(h: Host, was: map<Component, seq<Resource>>, kids: seq<Shape>, t: Shape)
    ensures h.ChosenBelow(was, kids + [t]) == h.ChosenBelow(was, kids) + h.Chosen(was, t.comp, t.kids)
  {
    var left := h.ChosenBelow(was, kids + [t]);
    forall c | c in h.ChosenBelow(was, kids) ensures c in left {
      var i :| 0 <= i < |kids| && c in h.Chosen(was, kids[i].comp, kids[i].kids);
      assert (kids + [t])[i] == kids[i];
    }
    forall c | c in h.Chosen(was, t.comp, t.kids) ensures c in left {
      assert (kids + [t])[|kids|] == t;
    }
  }

  /** Adds the resources of the host to a component that contains the host. */
  method AddHere(h: Host, site: Component, host: seq<Resource>, ghost kids: seq<Shape>, ghost was: map<Component, seq<Resource>>,
                 ghost all: set<Component>, ghost pool: set<Resource>, ghost reached: set<Resource>, ghost touched: set<InstanceProperties>,
                 ghost merges: Merges)
    requires site in all && Listed(all, was, pool) && h.In(was[site])
    requires Elements(host) <= pool && Coherent(pool)
    requires Reached(was, {site}, host) <= reached && PropsOf(reached) <= touched
    requires merges.Keep({}, was, host, pool)
    modifies site`resources, reached, touched
    ensures forall c :: c in all ==> c.resources == NewList(h, was, h.Chosen(was, site, kids), c, host)
    ensures Coherent(pool) && PropsOf(reached) <= touched
    ensures merges.Keep(h.Chosen(was, site, kids), was, host, pool)
  {
    assert h.Chosen(was, site, kids) == {site};
    var merged := MergeKept(site, host, was, pool, reached, touched, merges);
    StoreList(site, merged, {site}, was, host, pool, merges);
  }

  method StoreList(site: Component, list: seq<Resource>, ghost more: set<Component>, ghost was: map<Component, seq<Resource>>,
                   ghost host: seq<Resource>, ghost pool: set<Resource>, ghost merges: Merges)
    requires merges.Keep(more, was, host, pool)
    modifies site`resources
    ensures site.resources == list && merges.Keep(more, was, host, pool)
  {
    ghost var before := Take(pool);
    site.resources := list;
    assert Take(pool) == before;
  }

  method MergeKept(site: Component, host: seq<Resource>, ghost was: map<Component, seq<Resource>>,
                   ghost pool: set<Resource>, ghost reached: set<Resource>, ghost touched: set<InstanceProperties>, ghost merges: Merges)
    returns (merged: seq<Resource>)
    requires site in was && was[site] == site.resources
    requires Elements(was[site]) <= pool && Elements(host) <= pool && Coherent(pool)
    requires Elements(was[site] + host) <= reached && PropsOf(reached) <= touched
    requires merges.Keep({}, was, host, pool)
    modifies reached, touched
    ensures Coherent(pool) && PropsOf(reached) <= touched
    ensures merged == AppendNew([], was[site] + host, UriOf) && merges.Keep({site}, was, host, pool)
  {
    ghost var before := Take(pool);
    merged := MergeHere(site, host, was[site], pool, reached, touched, before);
    merges.Step(before, {}, site, merged, was, host, pool);
  }

  method MergeHere(site: Component, host: seq<Resource>, ghost own: seq<Resource>,
                   ghost pool: set<Resource>, ghost reached: set<Resource>, ghost touched: set<InstanceProperties>, ghost before: Snapshot)
    returns (merged: seq<Resource>)
    requires own == site.resources && Elements(own) <= pool && Elements(host) <= pool && Coherent(pool) && before == Take(pool)
    requires Elements(own + host) <= reached && PropsOf(reached) <= touched
    modifies reached, touched
    ensures Coherent(pool) && PropsOf(reached) <= touched
    ensures Removed(before, Take(pool), pool, own + host, merged)
  {
    merged := RemoveDuplicatesIn(site.resources + host, pool, touched, before);
  }

  /** One more subtree is up to date. */
  lemma UpdatedNext(h: Host, was: map<Component, seq<Resource>>, kids: seq<Shape>, i: nat, all: set<Component>,
                    host: seq<Resource>)
    requires i < |kids| && forall c :: c in all ==> c in was
    requires forall i, j :: 0 <= i < j < |kids| ==> Comps(kids[i]) !! Comps(kids[j])
    requires Comps(kids[i]) <= all
    requires forall c :: c in Comps(kids[i]) ==> c.resources == NewList(h, was, h.Chosen(was, kids[i].comp, kids[i].kids), c, host)
    requires forall c :: c in all && c !in Comps(kids[i]) ==>
      c.resources == if c in CompsBelow(kids[..i]) then NewList(h, was, h.ChosenBelow(was, kids), c, host) else was[c]
    ensures UpdatedUpTo(h, was, kids, i + 1, all, host)
  {
    NextApart(kids, i);
    forall c | c in Comps(kids[i])
      ensures c in h.ChosenBelow(was, kids) <==> c in h.Chosen(was, kids[i].comp, kids[i].kids)
    {
      ChosenHere(h, was, kids, i, c);
    }
  }

  /** The lists of the next subtree are still those before the update. */
  lemma NextListed(h: Host, was: map<Component, seq<Resource>>, kids: seq<Shape>, i: nat, all: set<Component>,
                   host: seq<Resource>, pool: set<Resource>)
    requires i < |kids| && Comps(kids[i]) <= all
    requires forall i, j :: 0 <= i < j < |kids| ==> Comps(kids[i]) !! Comps(kids[j])
    requires forall c :: c in all ==> c in was && Elements(was[c]) <= pool
    requires UpdatedUpTo(h, was, kids, i, all, host)
    ensures Listed(Comps(kids[i]), was, pool)
  {
    NextApart(kids, i);
  }

  /** Adds the resources of the host to the tree of a replication site. */
  method AddInto(h: Host, rep: ReplicationSite, host: seq<Resource>, ghost kids: seq<Shape>, ghost t: Shape,
                 ghost was: map<Component, seq<Resource>>, ghost all: set<Component>, ghost sites: set<ReplicationSite>,
                 ghost pool: set<Resource>, ghost reached: set<Resource>, ghost touched: set<InstanceProperties>, ghost merges: Merges)
    requires CompsBelow(kids) <= all && SitesBelow(kids) <= sites
    requires t in kids && LinkedAll(kids) && rep == t.site && TreeApart(t.comp, t.kids) && Listed(Comps(t), was, pool)
    requires Elements(host) <= pool && Coherent(pool)
    requires Reached(was, h.Chosen(was, t.comp, t.kids), host) <= reached && PropsOf(reached) <= touched
    requires merges.Keep({}, was, host, pool)
    modifies Comps(t)`resources, reached, touched
    ensures forall c :: c in Comps(t) ==> c.resources == NewList(h, was, h.Chosen(was, t.comp, t.kids), c, host)
    ensures LinkedAll(kids) && Coherent(pool) && PropsOf(reached) <= touched
    ensures merges.Keep(h.Chosen(was, t.comp, t.kids), was, host, pool)
    decreases t.kids, 3
  {
    assert LinkedSite(t);
    AddHostResources(h, rep.component, host, t.kids, was, Comps(t), SitesBelow(t.kids), pool, reached, touched, merges);
  }

  /** Visits the next replication site of a component that does not contain the host. */
  method AddNext(h: Host, rep: ReplicationSite, host: seq<Resource>, ghost kids: seq<Shape>, ghost i: nat,
                  ghost was: map<Component, seq<Resource>>,
                  ghost all: set<Component>, ghost sites: set<ReplicationSite>,
                  ghost pool: set<Resource>, ghost reached: set<Resource>, ghost touched: set<InstanceProperties>, ghost merges: Merges)
    requires i < |kids| && rep == kids[i].site && LinkedAll(kids)
    requires CompsBelow(kids) <= all && SitesBelow(kids) <= sites
    requires forall i, j :: 0 <= i < j < |kids| ==> Comps(kids[i]) !! Comps(kids[j])
    requires TreeApart(kids[i].comp, kids[i].kids)
    requires forall c :: c in all ==> c in was && Elements(was[c]) <= pool
    requires UpdatedUpTo(h, was, kids, i, all, host)
    requires Elements(host) <= pool && Coherent(pool)
    requires Reached(was, h.ChosenBelow(was, kids), host) <= reached && PropsOf(reached) <= touched
    requires merges.Keep(h.ChosenBelow(was, kids[..i]), was, host, pool)
    modifies Comps(kids[i])`resources, reached, touched
    ensures LinkedAll(kids)
    ensures UpdatedUpTo(h, was, kids, i + 1, all, host)
    ensures Coherent(pool) && PropsOf(reached) <= touched
    ensures merges.Keep(h.ChosenBelow(was, kids[..i + 1]), was, host, pool)
    decreases kids, 0, 1
  {
    ghost var t := kids[i];
    assert h.Chosen(was, t.comp, t.kids) <= h.ChosenBelow(was, kids);
    ReachedMore(was, h.Chosen(was, t.comp, t.kids), h.ChosenBelow(was, kids), host);
    NextMerges(h, was, kids, i, host, pool, merges);
    AddBelow(h, rep, host, kids, i, was, all, sites, pool, reached, touched, merges.With(h.ChosenBelow(was, kids[..i])));
  }

  /** Visits one replication site of a component that does not contain the host. */
  method AddBelow(h: Host, rep: ReplicationSite, host: seq<Resource>, ghost kids: seq<Shape>, ghost i: nat,
                  ghost was: map<Component, seq<Resource>>,
                  ghost all: set<Component>, ghost sites: set<ReplicationSite>,
                  ghost pool: set<Resource>, ghost reached: set<Resource>, ghost touched: set<InstanceProperties>, ghost merges: Merges)
    requires i < |kids| && rep == kids[i].site && LinkedAll(kids)
    requires CompsBelow(kids) <= all && SitesBelow(kids) <= sites
    requires forall i, j :: 0 <= i < j < |kids| ==> Comps(kids[i]) !! Comps(kids[j])
    requires TreeApart(kids[i].comp, kids[i].kids)
    requires forall c :: c in all ==> c in was && Elements(was[c]) <= pool
    requires UpdatedUpTo(h, was, kids, i, all, host)
    requires Elements(host) <= pool && Coherent(pool)
    requires Reached(was, h.Chosen(was, kids[i].comp, kids[i].kids), host) <= reached && PropsOf(reached) <= touched
    requires merges.Keep({}, was, host, pool)
    modifies Comps(kids[i])`resources, reached, touched
    ensures LinkedAll(kids)
    ensures UpdatedUpTo(h, was, kids, i + 1, all, host)
    ensures Coherent(pool) && PropsOf(reached) <= touched
    ensures merges.Keep(h.Chosen(was, kids[i].comp, kids[i].kids), was, host, pool)
    decreases kids, 0, 0
  {
    NextListed(h, was, kids, i, all, host, pool);
    AddInto(h, rep, host, kids, kids[i], was, all, sites, pool, reached, touched, merges);
    UpdatedNext(h, was, kids, i, all, host);
  }

  // ----- which components are chosen ----------------------------------------

  ghost predicate ValidAt(kids: seq<Shape>, p: Path)
    decreases |p|
  {
    p == [] || (p[0] < |kids| && ValidAt(kids[p[0]].kids, p[1..]))
  }

  /** The component at a position of the component tree. */
  ghost function CompAt(comp: Component, kids: seq<Shape>, p: Path): Component
    requires ValidAt(kids, p)
    decreases |p|
  {
    if p == [] then comp else CompAt(kids[p[0]].comp, kids[p[0]].kids, p[1..])
  }

  lemma {:induction false} AtPrefix(comp: Component, kids: seq<Shape>, p: Path, n: nat)
    requires ValidAt(kids, p) && n <= |p|
    ensures ValidAt(kids, p[..n]) && CompAt(comp, kids, p) in Reach(comp, kids)
    decreases |p|
  {
    if p != [] {
      AtPrefix(kids[p[0]].comp, kids[p[0]].kids, p[1..], if n == 0 then 0 else n - 1);
      CompsIn(kids, p[0]);
      if n > 0 {
        assert p[..n][1..] == p[1..][..n - 1];
      }
    }
  }

  /** Positions inside a subtree, seen from the component above it. */
  lemma AtShift(comp: Component, kids: seq<Shape>, p: Path, n: nat)
    requires ValidAt(kids, p) && 0 < n <= |p|
    ensures ValidAt(kids, p[..n]) && ValidAt(kids[p[0]].kids, p[1..][..n - 1])
    ensures CompAt(comp, kids, p[..n]) == CompAt(kids[p[0]].comp, kids[p[0]].kids, p[1..][..n - 1])
  {
    AtPrefix(comp, kids, p, n);
    AtPrefix(kids[p[0]].comp, kids[p[0]].kids, p[1..], n - 1);
    assert p[..n][1..] == p[1..][..n - 1];
  }

  /** No component strictly above a position contains the host. */
  ghost predicate HostNotAbove(h: Host, was: map<Component, seq<Resource>>, comp: Component, kids: seq<Shape>, p: Path)
    requires ValidAt(kids, p)
  {
    forall n :: 0 <= n < |p| ==>
      ValidAt(kids, p[..n]) && CompAt(comp, kids, p[..n]) in was
      && forall r :: r in was[CompAt(comp, kids, p[..n])] ==> h.instanceOf(r.uri) != h.name
  }

  lemma HostNotAboveShift(h: Host, was: map<Component, seq<Resource>>, comp: Component, kids: seq<Shape>, p: Path)
    requires ValidAt(kids, p) && p != [] && comp in was
    ensures HostNotAbove(h, was, comp, kids, p)
       <==> !h.In(was[comp]) && HostNotAbove(h, was, kids[p[0]].comp, kids[p[0]].kids, p[1..])
  {
    assert p[..0] == [] && CompAt(comp, kids, p[..0]) == comp;
    var k := kids[p[0]];
    if HostNotAbove(h, was, k.comp, k.kids, p[1..]) && !h.In(was[comp]) {
      forall n | 0 <= n < |p|
        ensures ValidAt(kids, p[..n]) && CompAt(comp, kids, p[..n]) in was && !h.In(was[CompAt(comp, kids, p[..n])])
      {
        if n > 0 {
          AtShift(comp, kids, p, n);
        }
      }
    }
    if HostNotAbove(h, was, comp, kids, p) {
      forall n | 0 <= n < |p| - 1
        ensures ValidAt(k.kids, p[1..][..n]) && CompAt(k.comp, k.kids, p[1..][..n]) in was
        ensures !h.In(was[CompAt(k.comp, k.kids, p[1..][..n])])
      {
        AtShift(comp, kids, p, n + 1);
      }
    }
  }

  lemma {:induction false} ChosenWhere(h: Host, was: map<Component, seq<Resource>>, comp: Component, kids: seq<Shape>, p: Path)
    requires ValidAt(kids, p) && TreeApart(comp, kids) && forall c :: c in Reach(comp, kids) ==> c in was
    ensures CompAt(comp, kids, p) in was
    ensures CompAt(comp, kids, p) in h.Chosen(was, comp, kids)
       <==> h.In(was[CompAt(comp, kids, p)]) && HostNotAbove(h, was, comp, kids, p)
    decreases |p|
  {
    AtPrefix(comp, kids, p, |p|);
    if p == [] {
      ChosenWithin(h, was, comp, kids);
    } else {
      var k := kids[p[0]];
      CompsIn(kids, p[0]);
      AtPrefix(k.comp, k.kids, p[1..], 0);
      ChosenWhere(h, was, k.comp, k.kids, p[1..]);
      ChosenHere(h, was, kids, p[0], CompAt(comp, kids, p));
      HostNotAboveShift(h, was, comp, kids, p);
    }
  }

  /** A component is chosen exactly when it contains the host and no component above it does. */
  lemma ChosenExactly(h: Host, was: map<Component, seq<Resource>>, comp: Component, kids: seq<Shape>, p: Path)
    requires ValidAt(kids, p) && TreeApart(comp, kids) && forall c :: c in Reach(comp, kids) ==> c in was
    ensures CompAt(comp, kids, p) in was
    ensures CompAt(comp, kids, p) in h.Chosen(was, comp, kids)
       <==> (exists r :: r in was[CompAt(comp, kids, p)] && h.instanceOf(r.uri) == h.name) && HostNotAbove(h, was, comp, kids, p)
  {
    ChosenWhere(h, was, comp, kids, p);
  }

  /** A list gains exactly the host URIs it lacks, at the end, and keeps its URIs distinct. */
  ghost predicate Grows(list: seq<Resource>, host: seq<Resource>, out: seq<Resource>) {
    && list <= out && DistinctKeys(out, UriOf) && (forall r :: r in out ==> r in list || r in host)
    && (forall u :: HasKey(out, UriOf, u) <==> HasKey(list, UriOf, u) || HasKey(host, UriOf, u))
  }

  lemma HostListGrows(list: seq<Resource>, host: seq<Resource>)
    requires DistinctKeys(list, UriOf)
    ensures Grows(list, host, AppendNew([], list + host, UriOf))
  {
    var none: seq<Resource> := [];
    assert none + list == list;
    AppendNewSplit(none, list, host, UriOf);
    AppendNewWhole(none, list, UriOf);
    AppendNewKeys(list, host, UriOf);
    AppendNewDistinct(list, host, UriOf);
  }

  // ----- trees that discovery builds ----------------------------------------

  lemma {:induction false} CompsInFoot(t: Shape)
    ensures Comps(t) <= Foot(t)
    decreases t
  {
    forall c | c in CompsBelow(t.kids) ensures c in FootAll(t.kids) {
      var i :| 0 <= i < |t.kids| && c in Comps(t.kids[i]);
      CompsInFoot(t.kids[i]);
    }
  }

  lemma CompsBelowInFoot(ts: seq<Shape>)
    ensures CompsBelow(ts) <= FootAll(ts)
  {
    forall c | c in CompsBelow(ts) ensures c in FootAll(ts) {
      var i :| 0 <= i < |ts| && c in Comps(ts[i]);
      CompsInFoot(ts[i]);
    }
  }

  lemma SitesApart(ts: seq<Shape>, i: nat, j: nat)
    requires ApartAll(ts) && i < j < |ts|
    ensures Comps(ts[i]) !! Comps(ts[j])
  {
    CompsInFoot(ts[i]);
    CompsInFoot(ts[j]);
    assert Foot(ts[i]) !! Foot(ts[j]);
  }

  lemma {:induction false} ApartTree(t: Shape)
    requires Apart(t)
    ensures TreeApart(t.comp, t.kids)
    decreases t
  {
    assert t.comp in Top(t);
    CompsBelowInFoot(t.kids);
    forall i | 0 <= i < |t.kids| ensures TreeApart(t.kids[i].comp, t.kids[i].kids) {
      ApartTree(t.kids[i]);
    }
    forall i, j | 0 <= i < j < |t.kids| ensures Comps(t.kids[i]) !! Comps(t.kids[j]) {
      SitesApart(t.kids, i, j);
    }
  }

  lemma {:induction false} OwnedLinked(t: Shape)
    requires Owned(t)
    ensures LinkedSite(t)
    decreases t
  {
    forall i | 0 <= i < |t.kids| ensures LinkedSite(t.kids[i]) {
      OwnedLinked(t.kids[i]);
    }
  }

  /** The resources of every component of a tree and their properties are objects of the tree. */
  lemma {:induction false} ListInFoot(t: Shape, c: Component)
    requires Owned(t) && c in Comps(t)
    ensures Objects(c.resources) <= Foot(t)
    decreases t
  {
    if c == t.comp {
      OwnInStock(t);
    } else {
      var i :| 0 <= i < |t.kids| && c in Comps(t.kids[i]);
      ListInFoot(t.kids[i], c);
      assert Foot(t.kids[i]) <= FootAll(t.kids);
    }
  }

  lemma OwnInStock(t: Shape)
    requires Owned(t)
    ensures Objects(t.comp.resources) <= Stock(t)
  {
    forall r | r in t.resources ensures r in Stock(t) && (r.props != null ==> r.props in Stock(t)) {
      var i :| 0 <= i < |t.resources| && t.resources[i] == r;
      assert t.props[i] in t.props;
    }
  }

  lemma BelowInFoot(t: Shape, c: Component) returns (i: nat)
    requires Owned(t) && c in Comps(t) && c != t.comp
    ensures i < |t.kids| && c in Comps(t.kids[i]) && Objects(c.resources) <= Foot(t.kids[i]) <= FootAll(t.kids)
  {
    i :| 0 <= i < |t.kids| && c in Comps(t.kids[i]);
    ListInFoot(t.kids[i], c);
  }

  /** The lists of two components of a tree have nothing in common. */
  lemma {:induction false} ListsApart(t: Shape, c: Component, d: Component)
    requires Owned(t) && Apart(t) && c in Comps(t) && d in Comps(t) && c != d
    ensures Objects(c.resources) !! Objects(d.resources)
    decreases t
  {
    OwnInStock(t);
    assert Stock(t) !! FootAll(t.kids);
    if c == t.comp {
      var j := BelowInFoot(t, d);
    } else if d == t.comp {
      var i := BelowInFoot(t, c);
    } else {
      var i := BelowInFoot(t, c);
      var j := BelowInFoot(t, d);
      if i == j {
        ListsApart(t.kids[i], c, d);
      } else {
        assert Foot(t.kids[i]) !! Foot(t.kids[j]);
      }
    }
  }

  lemma {:induction false} ListsDistinct(t: Shape)
    requires Owned(t) && Apart(t)
    ensures forall c :: c in Comps(t) ==> DistinctKeys(c.resources, UriOf)
    decreases t
  {
    forall c | c in CompsBelow(t.kids) ensures DistinctKeys(c.resources, UriOf) {
      var i :| 0 <= i < |t.kids| && c in Comps(t.kids[i]);
      ListsDistinct(t.kids[i]);
    }
  }

  /** What a tree built by discovery offers to the two updates: it is linked, and its components are apart. */
  lemma DiscoveredTree(t: Shape)
    requires Owned(t) && Apart(t)
    ensures LinkedSite(t) && TreeApart(t.comp, t.kids) && Comps(t) <= Foot(t)
    ensures forall c :: c in Comps(t) ==> DistinctKeys(c.resources, UriOf)
    ensures forall c, d :: c in Comps(t) && d in Comps(t) && c != d ==> Objects(c.resources) !! Objects(d.resources)
  {
    OwnedLinked(t);
    ApartTree(t);
    CompsInFoot(t);
    ListsDistinct(t);
    forall c, d | c in Comps(t) && d in Comps(t) && c != d ensures Objects(c.resources) !! Objects(d.resources) {
      ListsApart(t, c, d);
    }
  }
}

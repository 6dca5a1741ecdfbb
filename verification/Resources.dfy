/**
 * Cloud resources found by discovery and the in-place merge that removes
 * duplicate URIs (internal/system/discovery.go, removeDuplicates).
 *
 * Resources and their instance properties are heap objects, as in the source:
 * two entries of a list may be the same object, and two resources may share
 * one properties object. Only entries with the same URI share properties.
 */
module Resources {
  import opened Common

  datatype Kind = UnspecifiedKind | InstanceKind | InstanceGroupKind | BackendServiceKind | NetworkKind | OtherKind(code: int)

  /** One bit of the instance role mask. A mask is the set of its bits, and bitwise OR is union. */
  datatype Role = Ascs | Ers | AppServer | Database

  datatype App = App(name: string, number: string)

  datatype PropsValue = PropsValue(roles: set<Role>, hostname: string, apps: seq<App>, disks: seq<string>)

  datatype ResourceValue = ResourceValue(uri: string, kind: Kind, related: seq<string>, props: Option<PropsValue>)

  class InstanceProperties {
    var roles: set<Role>
    var hostname: string
    var apps: seq<App>
    var disks: seq<string>

    constructor (p: PropsValue)
      ensures PropsView(this) == p
    {
      roles, hostname, apps, disks := p.roles, p.hostname, p.apps, p.disks;
    }
  }

  class Resource {
    const uri: string
    const kind: Kind
    var related: seq<string>
    var props: InstanceProperties?

    constructor (r: ResourceValue)
      ensures View(this) == r
      ensures props != null ==> fresh(props)
    {
      uri, kind, related := r.uri, r.kind, r.related;
      if r.props.Some? {
        var p := new InstanceProperties(r.props.value);
        props := p;
      } else {
        props := null;
      }
    }
  }

  // ----- values -------------------------------------------------------------

  function AppName(a: App): string {
    a.name
  }

  function UriOf(r: Resource): string {
    r.uri
  }

  function ValueUri(v: ResourceValue): string {
    v.uri
  }

  function Roles(v: ResourceValue): set<Role> {
    if v.props.Some? then v.props.value.roles else {}
  }

  function Apps(v: ResourceValue): seq<App> {
    if v.props.Some? then v.props.value.apps else []
  }

  ghost function MergeProps(stored: PropsValue, dup: PropsValue): PropsValue {
    PropsValue(stored.roles + dup.roles,
               if dup.hostname != "" then dup.hostname else stored.hostname,
               AppendNew(stored.apps, dup.apps, AppName),
               stored.disks)
  }

  /** The effect of one duplicate on the resource stored for its URI. */
  ghost function Merge(stored: ResourceValue, dup: ResourceValue): ResourceValue {
    stored.(related := AppendNew(stored.related, dup.related, Same<string>),
            props := if dup.props.None? then stored.props
                     else if stored.props.None? then dup.props
                     else Some(MergeProps(stored.props.value, dup.props.value)))
  }

  /** Position of a URI in a list, or its length. */
  ghost function IndexOf(vs: seq<ResourceValue>, uri: string): (k: nat)
    ensures k <= |vs|
    ensures k < |vs| ==> vs[k].uri == uri
    ensures forall i :: 0 <= i < k ==> vs[i].uri != uri
  {
    if vs == [] then 0 else if vs[0].uri == uri then 0 else 1 + IndexOf(vs[1..], uri)
  }

  ghost function Insert(out: seq<ResourceValue>, v: ResourceValue): seq<ResourceValue> {
    var k := IndexOf(out, v.uri);
    if k < |out| then out[k := Merge(out[k], v)] else out + [v]
  }

  /** The list without duplicate URIs: a left fold of `Insert`. */
  ghost function Dedup(vs: seq<ResourceValue>): seq<ResourceValue> {
    DedupOnto([], vs)
  }

  ghost function DedupOnto(out: seq<ResourceValue>, vs: seq<ResourceValue>): seq<ResourceValue> {
    if vs == [] then out
    else Insert(DedupOnto(out, vs[..|vs| - 1]), vs[|vs| - 1])
  }

  /** All the entries of one URI merged in order, independently of every other URI. */
  ghost function Group(vs: seq<ResourceValue>, uri: string): Option<ResourceValue> {
    if vs == [] then None
    else
      var g, v := Group(vs[..|vs| - 1], uri), vs[|vs| - 1];
      if v.uri != uri then g else if g.None? then Some(v) else Some(Merge(g.value, v))
  }

  ghost function Uris(vs: seq<ResourceValue>): set<string> {
    set v | v in vs :: v.uri
  }

  // ----- laws of the values -------------------------------------------------

  lemma IndexOfUnique(vs: seq<ResourceValue>, uri: string, k: nat)
    requires k <= |vs|
    requires k < |vs| ==> vs[k].uri == uri
    requires forall i :: 0 <= i < k ==> vs[i].uri != uri
    ensures IndexOf(vs, uri) == k
  {
  }

  ghost function Lookup(vs: seq<ResourceValue>, uri: string): Option<ResourceValue> {
    var k := IndexOf(vs, uri);
    if k < |vs| then Some(vs[k]) else None
  }

  /** One insertion keeps URIs distinct and in order. */
  lemma InsertKeys(out: seq<ResourceValue>, v: ResourceValue)
    requires DistinctKeys(out, ValueUri)
    ensures DistinctKeys(Insert(out, v), ValueUri)
    ensures Keys(Insert(out, v), ValueUri) == AppendNew(Keys(out, ValueUri), [v.uri], Same<string>)
  {
    var k := IndexOf(out, v.uri);
    var keys := Keys(out, ValueUri);
    assert [v.uri][..0] == [];
    assert AppendNew(keys, [], Same<string>) == keys;
    if k < |out| {
      assert Same(keys[k]) == v.uri;
      assert Keys(Insert(out, v), ValueUri) == keys;
    } else {
      forall i | 0 <= i < |keys| ensures Same(keys[i]) != v.uri {
      }
      assert Keys(Insert(out, v), ValueUri) == keys + [v.uri];
    }
  }

  /** One insertion only touches the entry of its URI. */
  lemma InsertLookup(out: seq<ResourceValue>, v: ResourceValue, uri: string)
    ensures Lookup(Insert(out, v), uri)
         == if v.uri != uri then Lookup(out, uri)
            else if Lookup(out, uri).None? then Some(v) else Some(Merge(Lookup(out, uri).value, v))
  {
    var k := IndexOf(out, uri);
    if k < |out| || v.uri == uri {
      IndexOfUnique(Insert(out, v), uri, k);
    } else {
      IndexOfUnique(Insert(out, v), uri, |Insert(out, v)|);
    }
  }

  /** URIs come out distinct and in order of first occurrence. */
  lemma {:induction false} DedupUris(vs: seq<ResourceValue>)
    ensures DistinctKeys(Dedup(vs), ValueUri)
    ensures Keys(Dedup(vs), ValueUri) == AppendNew([], Keys(vs, ValueUri), Same<string>)
  {
    if vs != [] {
      var init, v := vs[..|vs| - 1], vs[|vs| - 1];
      DedupUris(init);
      InsertKeys(Dedup(init), v);
      assert Keys(vs, ValueUri) == Keys(init, ValueUri) + [v.uri];
      AppendNewSplit([], Keys(init, ValueUri), [v.uri], Same<string>);
    }
  }

  /** Every entry of the result is the in-order merge of the entries of its URI, and none is lost. */
  lemma {:induction false} DedupGroups(vs: seq<ResourceValue>, uri: string)
    ensures Group(vs, uri) == Lookup(Dedup(vs), uri)
    ensures uri in Uris(vs) <==> Group(vs, uri).Some?
  {
    if vs != [] {
      var init, v := vs[..|vs| - 1], vs[|vs| - 1];
      assert vs == init + [v];
      DedupGroups(init, uri);
      InsertLookup(Dedup(init), v, uri);
    }
  }

  lemma DedupUriSet(vs: seq<ResourceValue>)
    ensures Uris(Dedup(vs)) == Uris(vs)
  {
    forall uri ensures uri in Uris(Dedup(vs)) <==> uri in Uris(vs) {
      DedupGroups(vs, uri);
    }
  }

  /** Roles are the OR over all duplicates, related URIs and app names the union, the kind the first one. */
  lemma {:induction false} GroupUnion(vs: seq<ResourceValue>, uri: string)
    requires Group(vs, uri).Some?
    ensures var g := Group(vs, uri).value;
         && g.uri == uri
         && (forall b :: b in Roles(g) <==> exists v :: v in vs && v.uri == uri && b in Roles(v))
         && (forall s :: s in g.related <==> exists v :: v in vs && v.uri == uri && s in v.related)
         && (forall n :: HasKey(Apps(g), AppName, n) <==> exists v :: v in vs && v.uri == uri && HasKey(Apps(v), AppName, n))
         && (g.props.Some? <==> exists v :: v in vs && v.uri == uri && v.props.Some?)
         && (exists i :: 0 <= i < |vs| && vs[i].uri == uri && (forall j :: 0 <= j < i ==> vs[j].uri != uri) && g.kind == vs[i].kind)
  {
    var init, v := vs[..|vs| - 1], vs[|vs| - 1];
    assert vs == init + [v];
    if Group(init, uri).None? {
      forall w | w in init ensures w.uri != uri {
        DedupGroups(init, uri);
      }
      assert vs[|init|].uri == uri;
    } else {
      GroupUnion(init, uri);
      var h := Group(init, uri).value;
      var i :| 0 <= i < |init| && init[i].uri == uri && (forall j :: 0 <= j < i ==> init[j].uri != uri) && h.kind == init[i].kind;
      assert vs[i] == init[i] && forall j :: 0 <= j < i ==> vs[j] == init[j];
      if v.uri == uri {
        MergeUnion(h, v);
      }
    }
  }

  /** Roles, related URIs and application names are those of all the entries with the URI together. */
  ghost predicate Unites(g: ResourceValue, vs: seq<ResourceValue>) {
    && (forall b :: b in Roles(g) <==> exists v :: v in vs && v.uri == g.uri && b in Roles(v))
    && (forall s :: s in g.related <==> exists v :: v in vs && v.uri == g.uri && s in v.related)
    && (forall n :: HasKey(Apps(g), AppName, n) <==> exists v :: v in vs && v.uri == g.uri && HasKey(Apps(v), AppName, n))
    && (g.props.Some? <==> exists v :: v in vs && v.uri == g.uri && v.props.Some?)
  }

  /** Every entry of the merged list unites the entries of its URI. */
  lemma DedupUnites(vs: seq<ResourceValue>, k: nat)
    requires k < |Dedup(vs)|
    ensures Unites(Dedup(vs)[k], vs)
  {
    var out := Dedup(vs);
    DedupUris(vs);
    forall j | 0 <= j < k ensures out[j].uri != out[k].uri {
      assert ValueUri(out[j]) != ValueUri(out[k]);
    }
    IndexOfUnique(out, out[k].uri, k);
    DedupGroups(vs, out[k].uri);
    GroupUnion(vs, out[k].uri);
  }

  /** The entries of `some` are those of `all`, but for properties that another entry of `some` has as well. */
  ghost predicate Thinned(some: seq<ResourceValue>, all: seq<ResourceValue>) {
    |some| == |all| &&
    forall i :: 0 <= i < |all| ==> some[i] == all[i] || (some[i] == all[i].(props := None) && HasTwin(some, all[i]))
  }

  ghost predicate HasApp(props: Option<PropsValue>, n: string) {
    props.Some? && HasKey(props.value.apps, AppName, n)
  }

  /** What holds of some properties of a URI in one of the lists does so in the other. */
  lemma SameProps(some: seq<ResourceValue>, all: seq<ResourceValue>, uri: string, f: Option<PropsValue> -> bool)
    requires Thinned(some, all) && !f(None)
    ensures (exists v :: v in some && v.uri == uri && f(v.props)) <==> (exists w :: w in all && w.uri == uri && f(w.props))
  {
    if v :| v in some && v.uri == uri && f(v.props) {
      var i :| 0 <= i < |some| && some[i] == v;
      assert all[i] in all && all[i].props == v.props;
    }
    if w :| w in all && w.uri == uri && f(w.props) {
      var i :| 0 <= i < |all| && all[i] == w;
      assert some[i] in some;
      if some[i] != w {
        var v :| v in some && v.uri == w.uri && v.props == w.props;
      }
    }
  }

  lemma SameRelated(some: seq<ResourceValue>, all: seq<ResourceValue>, uri: string, s: string)
    requires Thinned(some, all)
    ensures (exists v :: v in some && v.uri == uri && s in v.related) <==> (exists w :: w in all && w.uri == uri && s in w.related)
  {
    if v :| v in some && v.uri == uri && s in v.related {
      var i :| 0 <= i < |some| && some[i] == v;
      assert all[i] in all && all[i].related == v.related;
    }
    if w :| w in all && w.uri == uri && s in w.related {
      var i :| 0 <= i < |all| && all[i] == w;
      assert some[i] in some && some[i].related == w.related;
    }
  }

  /**
   * Leaving out properties that another entry of the same URI has as well does
   * not change what is united.
   */
  lemma SameUnion(g: ResourceValue, some: seq<ResourceValue>, all: seq<ResourceValue>)
    requires Unites(g, some) && Thinned(some, all)
    ensures Unites(g, all)
  {
    forall b ensures b in Roles(g) <==> exists w :: w in all && w.uri == g.uri && b in Roles(w) {
      SameRoles(some, all, g.uri, b);
    }
    forall s ensures s in g.related <==> exists w :: w in all && w.uri == g.uri && s in w.related {
      SameRelated(some, all, g.uri, s);
    }
    forall n ensures HasKey(Apps(g), AppName, n) <==> exists w :: w in all && w.uri == g.uri && HasKey(Apps(w), AppName, n) {
      SameApps(some, all, g.uri, n);
    }
    SameProps(some, all, g.uri, (p: Option<PropsValue>) => p.Some?);
  }

  lemma SameRoles(some: seq<ResourceValue>, all: seq<ResourceValue>, uri: string, b: Role)
    requires Thinned(some, all)
    ensures (exists v :: v in some && v.uri == uri && b in Roles(v)) <==> (exists w :: w in all && w.uri == uri && b in Roles(w))
  {
    SameProps(some, all, uri, (p: Option<PropsValue>) => p.Some? && b in p.value.roles);
  }

  lemma SameApps(some: seq<ResourceValue>, all: seq<ResourceValue>, uri: string, n: string)
    requires Thinned(some, all)
    ensures (exists v :: v in some && v.uri == uri && HasKey(Apps(v), AppName, n))
       <==> (exists w :: w in all && w.uri == uri && HasKey(Apps(w), AppName, n))
  {
    SameProps(some, all, uri, (p: Option<PropsValue>) => HasApp(p, n));
  }

  // ----- which application records are kept ---------------------------------

  /** The first record with a name. */
  ghost function AppOf(apps: seq<App>, n: string): Option<App> {
    if apps == [] then None
    else if AppOf(apps[..|apps| - 1], n).Some? then AppOf(apps[..|apps| - 1], n)
    else if apps[|apps| - 1].name == n then Some(apps[|apps| - 1]) else None
  }

  ghost predicate FirstNamed(apps: seq<App>, n: string, k: int) {
    0 <= k < |apps| && apps[k].name == n && forall j :: 0 <= j < k ==> apps[j].name != n
  }

  lemma {:induction false} AppOfExactly(apps: seq<App>, n: string)
    ensures AppOf(apps, n).None? <==> forall k :: 0 <= k < |apps| ==> apps[k].name != n
    ensures forall k :: FirstNamed(apps, n, k) ==> AppOf(apps, n) == Some(apps[k])
    ensures AppOf(apps, n).Some? ==> AppOf(apps, n).value.name == n
  {
    if apps != [] {
      var init := apps[..|apps| - 1];
      AppOfExactly(init, n);
      AppOfSnoc(init, apps[|apps| - 1], n);
      assert apps == init + [apps[|apps| - 1]];
      forall k | FirstNamed(apps, n, k) ensures AppOf(apps, n) == Some(apps[k]) {
        if k < |init| {
          FirstNamedEarlier(init, apps[|apps| - 1], n, k);
        }
      }
    }
  }

  lemma AppOfSnoc(init: seq<App>, a: App, n: string)
    ensures AppOf(init + [a], n) == if AppOf(init, n).Some? then AppOf(init, n) else if a.name == n then Some(a) else None
  {
    assert (init + [a])[..|init|] == init;
  }

  lemma FirstNamedEarlier(init: seq<App>, a: App, n: string, k: int)
    requires k < |init| && FirstNamed(init + [a], n, k)
    ensures FirstNamed(init, n, k)
  {
    assert forall j :: 0 <= j < |init| ==> (init + [a])[j] == init[j];
  }

  /** The first record with a name among the entries with a URI, in list order. */
  ghost function FirstApp(vs: seq<ResourceValue>, uri: string, n: string): Option<App> {
    if vs == [] then None
    else
      var a, v := FirstApp(vs[..|vs| - 1], uri, n), vs[|vs| - 1];
      if a.Some? then a else if v.uri == uri then AppOf(Apps(v), n) else None
  }

  /** Entry `i` has the URI and a record with the name at place `k`, and no record before that one has them. */
  ghost predicate FirstRecord(vs: seq<ResourceValue>, uri: string, n: string, i: int, k: int) {
    && 0 <= i < |vs| && vs[i].uri == uri && FirstNamed(Apps(vs[i]), n, k)
    && forall j, m :: 0 <= j < i && vs[j].uri == uri && 0 <= m < |Apps(vs[j])| ==> Apps(vs[j])[m].name != n
  }

  ghost predicate NoRecord(vs: seq<ResourceValue>, uri: string, n: string) {
    forall v, a :: v in vs && v.uri == uri && a in Apps(v) ==> a.name != n
  }

  lemma {:induction false} FirstAppNone(vs: seq<ResourceValue>, uri: string, n: string)
    ensures FirstApp(vs, uri, n).None? <==> NoRecord(vs, uri, n)
  {
    if vs != [] {
      var init, v := vs[..|vs| - 1], vs[|vs| - 1];
      assert vs == init + [v];
      FirstAppNone(init, uri, n);
      AppOfNone(Apps(v), n);
    }
  }

  lemma AppOfNone(apps: seq<App>, n: string)
    ensures AppOf(apps, n).None? <==> forall a :: a in apps ==> a.name != n
  {
    AppOfExactly(apps, n);
    forall a | a in apps ensures AppOf(apps, n).None? ==> a.name != n {
      var k :| 0 <= k < |apps| && apps[k] == a;
    }
    assert forall k :: 0 <= k < |apps| ==> apps[k] in apps;
  }

  lemma {:induction false} FirstAppExactly(vs: seq<ResourceValue>, uri: string, n: string, i: int, k: int)
    requires FirstRecord(vs, uri, n, i, k)
    ensures FirstApp(vs, uri, n) == Some(Apps(vs[i])[k])
  {
    var init, v := vs[..|vs| - 1], vs[|vs| - 1];
    if i < |init| {
      assert FirstRecord(init, uri, n, i, k);
      FirstAppExactly(init, uri, n, i, k);
    } else {
      NoRecordBefore(vs, uri, n, i);
      FirstAppNone(init, uri, n);
      AppOfExactly(Apps(v), n);
    }
  }

  lemma NoRecordBefore(vs: seq<ResourceValue>, uri: string, n: string, i: nat)
    requires i <= |vs| && forall j, m :: 0 <= j < i && vs[j].uri == uri && 0 <= m < |Apps(vs[j])| ==> Apps(vs[j])[m].name != n
    ensures NoRecord(vs[..i], uri, n)
  {
    forall v, a | v in vs[..i] && v.uri == uri && a in Apps(v) ensures a.name != n {
      var j :| 0 <= j < i && vs[j] == v;
      var m :| 0 <= m < |Apps(v)| && Apps(v)[m] == a;
      assert Apps(vs[j])[m].name != n;
    }
  }

  lemma {:induction false} AppOfAppendNew(base: seq<App>, extra: seq<App>, n: string)
    ensures AppOf(AppendNew(base, extra, AppName), n) == if AppOf(base, n).Some? then AppOf(base, n) else AppOf(extra, n)
  {
    if extra != [] {
      var init, a := extra[..|extra| - 1], extra[|extra| - 1];
      AppOfAppendNew(base, init, n);
      var rest := AppendNew(base, init, AppName);
      assert (rest + [a])[..|rest|] == rest;
      AppOfExactly(rest, a.name);
      if HasKey(rest, AppName, a.name) {
        var k :| 0 <= k < |rest| && AppName(rest[k]) == a.name;
      } else {
        forall k | 0 <= k < |rest| ensures rest[k].name != a.name {
          assert AppName(rest[k]) != a.name;
        }
      }
    }
  }

  /** A merged entry keeps, for every name, the first record in list order, and the records of the first properties come first. */
  ghost predicate KeepsRecords(g: ResourceValue, vs: seq<ResourceValue>) {
    && (forall n :: AppOf(Apps(g), n) == FirstApp(vs, g.uri, n))
    && (forall i :: FirstWithProps(vs, g.uri, i) ==> g.props.Some? && Apps(vs[i]) <= Apps(g))
  }

  /**
   * What keeping records means: the first record with a name in the merged entry is
   * the first record with that name over all entries with the URI, in list order.
   */
  lemma RecordsExactly(g: ResourceValue, vs: seq<ResourceValue>, n: string, m: int)
    requires KeepsRecords(g, vs) && FirstNamed(Apps(g), n, m)
    ensures exists i, k :: FirstRecord(vs, g.uri, n, i, k) && Apps(vs[i])[k] == Apps(g)[m]
  {
    AppOfExactly(Apps(g), n);
    var i, k := FindRecord(vs, g.uri, n);
    FirstAppExactly(vs, g.uri, n, i, k);
  }

  lemma FindRecord(vs: seq<ResourceValue>, uri: string, n: string) returns (i: int, k: int)
    requires FirstApp(vs, uri, n).Some?
    ensures FirstRecord(vs, uri, n, i, k)
  {
    var init, v := vs[..|vs| - 1], vs[|vs| - 1];
    if FirstApp(init, uri, n).Some? {
      i, k := FindRecord(init, uri, n);
    } else {
      i := |init|;
      k := FindNamed(Apps(v), n);
      FirstAppNone(init, uri, n);
      assert forall j :: 0 <= j < i ==> vs[j] == init[j] && init[j] in init;
    }
  }

  lemma FindNamed(apps: seq<App>, n: string) returns (k: int)
    requires AppOf(apps, n).Some?
    ensures FirstNamed(apps, n, k)
  {
    var init := apps[..|apps| - 1];
    if AppOf(init, n).Some? {
      k := FindNamed(init, n);
    } else {
      k := |init|;
      AppOfExactly(init, n);
    }
  }

  lemma {:induction false} NoGroupNoApps(vs: seq<ResourceValue>, uri: string, n: string)
    requires forall i :: 0 <= i < |vs| ==> !HasProps(vs[i], uri)
    ensures FirstApp(vs, uri, n) == None
  {
    if vs != [] {
      NoGroupNoApps(vs[..|vs| - 1], uri, n);
    }
  }

  /** If the first properties are the last entry's, the entries before had none. */
  lemma FirstHasProps(init: seq<ResourceValue>, h: ResourceValue, v: ResourceValue, vs: seq<ResourceValue>)
    requires vs == init + [v] && v.uri == h.uri && FirstWithProps(vs, h.uri, |init|)
    requires h.props.Some? ==> exists i :: 0 <= i < |init| && HasProps(init[i], h.uri)
    ensures Merge(h, v).props == v.props && v.props.Some?
  {
    assert forall i :: 0 <= i < |init| ==> vs[i] == init[i];
  }

  lemma GroupKeepsNext(init: seq<ResourceValue>, v: ResourceValue, h: ResourceValue)
    requires v.uri == h.uri && KeepsRecords(h, init)
    requires h.props.Some? <==> exists i :: 0 <= i < |init| && HasProps(init[i], h.uri)
    ensures KeepsRecords(Merge(h, v), init + [v])
  {
    var vs, g := init + [v], Merge(h, v);
    assert vs[..|init|] == init;
    forall n ensures AppOf(Apps(g), n) == FirstApp(vs, g.uri, n) {
      AppOfAppendNew(Apps(h), Apps(v), n);
    }
    forall i | FirstWithProps(vs, g.uri, i) ensures g.props.Some? && Apps(vs[i]) <= Apps(g) {
      if i < |init| {
        assert FirstWithProps(init, h.uri, i);
        AppendNewKeys(Apps(h), Apps(v), AppName);
      } else {
        FirstHasProps(init, h, v, vs);
      }
    }
  }

  lemma GroupKeepsOther(init: seq<ResourceValue>, v: ResourceValue, h: ResourceValue)
    requires v.uri != h.uri && KeepsRecords(h, init)
    ensures KeepsRecords(h, init + [v])
  {
    var vs := init + [v];
    assert vs[..|init|] == init;
    forall i | FirstWithProps(vs, h.uri, i) ensures h.props.Some? && Apps(vs[i]) <= Apps(h) {
      assert FirstWithProps(init, h.uri, i);
    }
  }

  lemma {:induction false} GroupKeepsRecords(vs: seq<ResourceValue>, uri: string)
    requires Group(vs, uri).Some?
    ensures KeepsRecords(Group(vs, uri).value, vs)
  {
    var init, v := vs[..|vs| - 1], vs[|vs| - 1];
    assert vs == init + [v];
    if Group(init, uri).None? {
      NoPropsBefore(init, uri);
      forall n ensures FirstApp(vs, uri, n) == AppOf(Apps(v), n) {
        NoGroupNoApps(init, uri, n);
      }
      forall i | FirstWithProps(vs, uri, i) ensures v.props.Some? && Apps(vs[i]) <= Apps(v) {
        assert i == |init|;
      }
    } else {
      GroupKeepsRecords(init, uri);
      GroupUnion(init, uri);
      var h := Group(init, uri).value;
      if h.props.None? {
        NoPropsBefore(init, uri);
      }
      if w :| w in init && w.uri == uri && w.props.Some? {
        var i :| 0 <= i < |init| && init[i] == w;
        assert HasProps(init[i], uri);
      }
      if v.uri == uri {
        GroupKeepsNext(init, v, h);
      } else {
        GroupKeepsOther(init, v, h);
      }
    }
  }

  lemma DedupKeepsRecords(vs: seq<ResourceValue>, k: nat)
    requires k < |Dedup(vs)|
    ensures KeepsRecords(Dedup(vs)[k], vs)
  {
    var out := Dedup(vs);
    DedupUris(vs);
    forall j | 0 <= j < k ensures out[j].uri != out[k].uri {
      assert ValueUri(out[j]) != ValueUri(out[k]);
    }
    IndexOfUnique(out, out[k].uri, k);
    DedupGroups(vs, out[k].uri);
    GroupKeepsRecords(vs, out[k].uri);
  }

  /** The entries of `some` are those of `all`, but for properties that an earlier entry has as well. */
  ghost predicate ThinnedLater(some: seq<ResourceValue>, all: seq<ResourceValue>) {
    |some| == |all| && forall i :: 0 <= i < |all| ==> some[i] == all[i] || RepeatsEarlier(some, all, i)
  }

  ghost predicate RepeatsEarlier(some: seq<ResourceValue>, all: seq<ResourceValue>, i: nat)
    requires i < |some| == |all|
  {
    some[i] == all[i].(props := None) && exists j :: 0 <= j < i && some[j].uri == all[i].uri && some[j].props == all[i].props
  }

  lemma ThinnedPrefix(some: seq<ResourceValue>, all: seq<ResourceValue>)
    requires ThinnedLater(some, all) && all != []
    ensures ThinnedLater(some[..|all| - 1], all[..|all| - 1])
  {
    var n := |all| - 1;
    forall i | 0 <= i < n ensures some[..n][i] == all[..n][i] || RepeatsEarlier(some[..n], all[..n], i) {
      if some[i] != all[i] {
        assert RepeatsEarlier(some, all, i);
        var j :| 0 <= j < i && some[j].uri == all[i].uri && some[j].props == all[i].props;
        assert some[..n][j] == some[j];
      }
    }
  }

  lemma {:induction false} ThinnedFirstApp(some: seq<ResourceValue>, all: seq<ResourceValue>, uri: string, n: string)
    requires ThinnedLater(some, all)
    ensures FirstApp(some, uri, n) == FirstApp(all, uri, n)
  {
    if all != [] {
      var m := |all| - 1;
      ThinnedPrefix(some, all);
      ThinnedFirstApp(some[..m], all[..m], uri, n);
      if some[m] != all[m] && all[m].uri == uri {
        assert RepeatsEarlier(some, all, m);
        var j :| 0 <= j < m && some[j].uri == all[m].uri && some[j].props == all[m].props;
        SomeFirstApp(some[..m], j, n);
      }
    }
  }

  /** If an entry has a record with a name, there is a first one. */
  lemma SomeFirstApp(vs: seq<ResourceValue>, j: nat, n: string)
    requires j < |vs|
    ensures AppOf(Apps(vs[j]), n).Some? ==> FirstApp(vs, vs[j].uri, n).Some?
  {
    AppOfNone(Apps(vs[j]), n);
    FirstAppNone(vs, vs[j].uri, n);
    assert vs[j] in vs;
  }

  lemma ThinnedKeeps(g: ResourceValue, some: seq<ResourceValue>, all: seq<ResourceValue>)
    requires KeepsRecords(g, some) && ThinnedLater(some, all)
    ensures KeepsRecords(g, all)
  {
    forall n ensures AppOf(Apps(g), n) == FirstApp(all, g.uri, n) {
      ThinnedFirstApp(some, all, g.uri, n);
    }
    forall i | FirstWithProps(all, g.uri, i) ensures g.props.Some? && Apps(all[i]) <= Apps(g) {
      forall j | 0 <= j < i ensures !HasProps(some[j], g.uri) {
        assert !HasProps(all[j], g.uri);
        assert some[j] == all[j] || RepeatsEarlier(some, all, j);
      }
      assert forall j :: 0 <= j < i && some[j].uri == g.uri ==> some[j].props == None;
      assert FirstWithProps(some, g.uri, i);
    }
  }

  ghost predicate HasTwin(vs: seq<ResourceValue>, w: ResourceValue) {
    exists v :: v in vs && v.uri == w.uri && v.props == w.props
  }

  lemma MergeUnion(a: ResourceValue, b: ResourceValue)
    ensures Roles(Merge(a, b)) == Roles(a) + Roles(b)
    ensures forall s :: s in Merge(a, b).related <==> s in a.related || s in b.related
    ensures forall n :: HasKey(Apps(Merge(a, b)), AppName, n) <==> HasKey(Apps(a), AppName, n) || HasKey(Apps(b), AppName, n)
  {
    AppendNewKeys(a.related, b.related, Same<string>);
    forall s ensures s in Merge(a, b).related <==> s in a.related || s in b.related {
      HasSame(Merge(a, b).related, s);
      HasSame(a.related, s);
      HasSame(b.related, s);
    }
    AppendNewKeys(Apps(a), Apps(b), AppName);
  }

  ghost predicate HasProps(v: ResourceValue, uri: string) {
    v.uri == uri && v.props.Some?
  }

  /** The host name is the last one that is not empty; the disks are those of the first entry with properties. */
  lemma {:induction false} GroupProps(vs: seq<ResourceValue>, uri: string)
    requires Group(vs, uri).Some? && Group(vs, uri).value.props.Some?
    ensures var p := Group(vs, uri).value.props.value;
         && (p.hostname == "" ==> forall v :: v in vs && HasProps(v, uri) ==> v.props.value.hostname == "")
         && (p.hostname != "" ==> exists i :: LastNamed(vs, uri, i) && vs[i].props.value.hostname == p.hostname)
         && (exists i :: FirstWithProps(vs, uri, i) && vs[i].props.value.disks == p.disks)
  {
    var init, v := vs[..|vs| - 1], vs[|vs| - 1];
    assert vs == init + [v];
    if Group(init, uri).None? || Group(init, uri).value.props.None? {
      NoPropsBefore(init, uri);
      assert FirstWithProps(vs, uri, |init|);
      assert v.props.value.hostname != "" ==> LastNamed(vs, uri, |init|);
    } else {
      GroupProps(init, uri);
      var p := Group(init, uri).value.props.value;
      var i :| FirstWithProps(init, uri, i) && init[i].props.value.disks == p.disks;
      assert FirstWithProps(vs, uri, i);
      if HasProps(v, uri) && v.props.value.hostname != "" {
        assert LastNamed(vs, uri, |init|);
      } else if p.hostname != "" {
        var k :| LastNamed(init, uri, k) && init[k].props.value.hostname == p.hostname;
        assert LastNamed(vs, uri, k);
      }
    }
  }

  ghost predicate LastNamed(vs: seq<ResourceValue>, uri: string, i: int) {
    && 0 <= i < |vs| && HasProps(vs[i], uri) && vs[i].props.value.hostname != ""
    && forall j :: i < j < |vs| && HasProps(vs[j], uri) ==> vs[j].props.value.hostname == ""
  }

  ghost predicate FirstWithProps(vs: seq<ResourceValue>, uri: string, i: int) {
    0 <= i < |vs| && HasProps(vs[i], uri) && forall j :: 0 <= j < i ==> !HasProps(vs[j], uri)
  }

  lemma {:induction false} NoPropsBefore(vs: seq<ResourceValue>, uri: string)
    requires Group(vs, uri).None? || Group(vs, uri).value.props.None?
    ensures forall i :: 0 <= i < |vs| ==> !HasProps(vs[i], uri)
  {
    if vs != [] {
      NoPropsBefore(vs[..|vs| - 1], uri);
    }
  }

  lemma HasSame(s: seq<string>, x: string)
    ensures HasKey(s, Same<string>, x) <==> x in s
  {
    if x in s {
      var i :| 0 <= i < |s| && s[i] == x;
      assert Same(s[i]) == x;
    }
  }

  /** A list with distinct URIs is left alone. */
  lemma {:induction false} DedupDistinct(vs: seq<ResourceValue>)
    requires DistinctKeys(vs, ValueUri)
    ensures Dedup(vs) == vs
  {
    if vs != [] {
      var init, v := vs[..|vs| - 1], vs[|vs| - 1];
      DedupDistinct(init);
      forall i | 0 <= i < |init| ensures init[i].uri != v.uri {
        assert ValueUri(vs[i]) != ValueUri(vs[|init|]);
      }
    }
  }

  lemma {:induction false} DedupOntoSplit(out: seq<ResourceValue>, a: seq<ResourceValue>, b: seq<ResourceValue>)
    ensures DedupOnto(out, a + b) == DedupOnto(DedupOnto(out, a), b)
  {
    if b == [] {
      assert a + b == a;
    } else {
      assert (a + b)[..|a + b| - 1] == a + b[..|b| - 1];
      DedupOntoSplit(out, a, b[..|b| - 1]);
    }
  }

  lemma DedupIdempotent(vs: seq<ResourceValue>)
    ensures Dedup(Dedup(vs)) == Dedup(vs)
  {
    DedupUris(vs);
    DedupDistinct(Dedup(vs));
  }

  /** Removing duplicates early changes nothing: the result may be extended and cleaned again. */
  lemma DedupAbsorbs(a: seq<ResourceValue>, b: seq<ResourceValue>)
    ensures Dedup(Dedup(a) + b) == Dedup(a + b)
  {
    DedupOntoSplit([], Dedup(a), b);
    DedupOntoSplit([], a, b);
    DedupIdempotent(a);
  }

  // ----- the heap -----------------------------------------------------------

  ghost function PropsView(p: InstanceProperties): PropsValue
    reads p
  {
    PropsValue(p.roles, p.hostname, p.apps, p.disks)
  }

  ghost function View(r: Resource): ResourceValue
    reads r, r.props
  {
    ResourceValue(r.uri, r.kind, r.related, if r.props == null then None else Some(PropsView(r.props)))
  }

  ghost function PropsOf(res: set<Resource>): set<InstanceProperties>
    reads res
  {
    set r | r in res && r.props != null :: r.props
  }

  ghost function Elements(res: seq<Resource>): set<Resource> {
    set r | r in res
  }

  ghost function Views(res: seq<Resource>): (vs: seq<ResourceValue>)
    reads Elements(res), PropsOf(Elements(res))
    ensures |vs| == |res| && forall i :: 0 <= i < |res| ==> vs[i] == View(res[i])
  {
    seq(|res|, i requires 0 <= i < |res| reads Elements(res), PropsOf(Elements(res)) => View(res[i]))
  }

  /** Resources share a properties object only when they carry the same URI. */
  ghost predicate Coherent(res: set<Resource>)
    reads res
  {
    forall r, s :: r in res && s in res && r.props != null && r.props == s.props ==> r.uri == s.uri
  }

  /** The mutable state of a list of resources and of their properties at one moment. */
  datatype Snapshot = Snapshot(
    related: map<Resource, seq<string>>,
    props: map<Resource, InstanceProperties?>,
    values: map<InstanceProperties, PropsValue>)
  {
    ghost predicate Covers(res: seq<Resource>) {
      && (forall r :: r in res ==> r in related && r in props)
      && (forall r :: r in res && props[r] != null ==> props[r] in values)
    }

    ghost predicate Coherent(res: seq<Resource>)
      requires Covers(res)
    {
      forall i, j :: 0 <= i < |res| && 0 <= j < |res| && props[res[i]] != null && props[res[i]] == props[res[j]]
                     ==> res[i].uri == res[j].uri
    }

    ghost function View(r: Resource): ResourceValue
      requires Covers([r])
    {
      assert r in [r];
      ResourceValue(r.uri, r.kind, related[r], if props[r] == null then None else Some(values[props[r]]))
    }

    ghost function Views(res: seq<Resource>): (vs: seq<ResourceValue>)
      requires Covers(res)
    {
      seq(|res|, i requires 0 <= i < |res| => View(res[i]))
    }

    /** The properties object stored for a URI after a list of entries: the first one present. */
    ghost function FirstProps(res: seq<Resource>, uri: string): InstanceProperties?
      requires Covers(res)
    {
      if res == [] then null
      else
        var p := FirstProps(res[..|res| - 1], uri);
        if p != null then p else if res[|res| - 1].uri == uri then props[res[|res| - 1]] else null
    }

    /**
     * What an entry contributes next to the properties object stored for its
     * URI. An entry that shares that object contributes no properties.
     */
    ghost function Contribution(r: Resource, stored: InstanceProperties?): ResourceValue
      requires Covers([r])
    {
      assert r in [r];
      if stored == props[r] then View(r).(props := None) else View(r)
    }

    /** What each entry of a list contributes. */
    ghost function Contributions(res: seq<Resource>): (vs: seq<ResourceValue>)
      requires Covers(res)
      ensures |vs| == |res|
    {
      if res == [] then []
      else
        var init, r := res[..|res| - 1], res[|res| - 1];
        Contributions(init) + [Contribution(r, FirstProps(init, r.uri))]
    }

    /** The first properties of a URI are those of some entry of that URI, or there are none. */
    lemma {:induction false} FirstPropsFound(res: seq<Resource>, uri: string)
      requires Covers(res)
      ensures var p := FirstProps(res, uri);
        if p == null then forall r :: r in res && r.uri == uri ==> props[r] == null
        else exists r :: r in res && r.uri == uri && props[r] == p
    {
      if res != [] {
        FirstPropsFound(res[..|res| - 1], uri);
      }
    }

    lemma {:induction false} ContributionAt(res: seq<Resource>, i: nat)
      requires Covers(res) && i < |res|
      ensures Contributions(res)[i] == Contribution(res[i], FirstProps(res[..i], res[i].uri))
    {
      if i < |res| - 1 {
        ContributionAt(res[..|res| - 1], i);
        assert res[..|res| - 1][..i] == res[..i];
      }
    }

    /** The entry that first had the properties stored for a URI contributes them. */
    lemma {:induction false} StoredIsContributed(res: seq<Resource>, uri: string) returns (i: nat)
      requires Covers(res) && FirstProps(res, uri) != null
      ensures i < |res| && res[i].uri == uri && props[res[i]] == FirstProps(res, uri) && Contributions(res)[i] == View(res[i])
    {
      var n := |res| - 1;
      if FirstProps(res[..n], uri) != null {
        i := StoredIsContributed(res[..n], uri);
      } else {
        i := n;
      }
    }

    /** An entry contributes its value, except for properties that an earlier entry of its URI contributes. */
    lemma ContributesOrShares(res: seq<Resource>, i: nat)
      requires Covers(res) && i < |res|
      ensures var v, c := Views(res)[i], Contributions(res)[i];
        c == v || (c == v.(props := None) && HasTwin(Contributions(res), v))
    {
      var r := res[i];
      ContributionAt(res, i);
      var p := FirstProps(res[..i], r.uri);
      if p == props[r] && p != null {
        var k := StoredIsContributed(res[..i], r.uri);
        ContributionsPrefix(res, i);
        assert Contributions(res)[k] == View(res[k]);
        assert Contributions(res)[k] in Contributions(res);
      }
    }

    lemma {:induction false} ContributionsPrefix(res: seq<Resource>, i: nat)
      requires Covers(res) && i <= |res|
      ensures Contributions(res[..i]) == Contributions(res)[..i]
    {
      if i == |res| {
        assert res[..i] == res;
      } else {
        ContributionsPrefix(res[..|res| - 1], i);
        assert res[..|res| - 1][..i] == res[..i];
      }
    }

    /** What is merged keeps the first records of all entries, even if entries share properties. */
    lemma MergedKeepsRecords(res: seq<Resource>, k: nat)
      requires Covers(res) && k < |Dedup(Contributions(res))|
      ensures KeepsRecords(Dedup(Contributions(res))[k], Views(res))
    {
      DedupKeepsRecords(Contributions(res), k);
      forall i | 0 <= i < |res| ensures Contributions(res)[i] == Views(res)[i] || RepeatsEarlier(Contributions(res), Views(res), i) {
        SharesEarlier(res, i);
      }
      ThinnedKeeps(Dedup(Contributions(res))[k], Contributions(res), Views(res));
    }

    lemma SharesEarlier(res: seq<Resource>, i: nat)
      requires Covers(res) && i < |res|
      ensures Contributions(res)[i] == Views(res)[i] || RepeatsEarlier(Contributions(res), Views(res), i)
    {
      var r := res[i];
      ContributionAt(res, i);
      var p := FirstProps(res[..i], r.uri);
      if p == props[r] && p != null {
        var k := StoredIsContributed(res[..i], r.uri);
        ContributionsPrefix(res, i);
        assert Contributions(res)[k] == View(res[k]);
      }
    }

    /** What is merged unites the values of all entries, even if entries share properties. */
    lemma MergedUnites(res: seq<Resource>, k: nat)
      requires Covers(res) && k < |Dedup(Contributions(res))|
      ensures Unites(Dedup(Contributions(res))[k], Views(res))
    {
      DedupUnites(Contributions(res), k);
      assert Thinned(Contributions(res), Views(res)) by {
        forall i | 0 <= i < |res|
          ensures var v, c := Views(res)[i], Contributions(res)[i];
            c == v || (c == v.(props := None) && HasTwin(Contributions(res), v))
        {
          ContributesOrShares(res, i);
        }
      }
      SameUnion(Dedup(Contributions(res))[k], Contributions(res), Views(res));
    }

    /** Without sharing, the contributions are just the values of the entries. */
    lemma {:induction false} ContributionsWithoutSharing(res: seq<Resource>)
      requires Covers(res)
      requires forall i, j :: 0 <= i < j < |res| && props[res[i]] != null ==> props[res[i]] != props[res[j]]
      ensures Contributions(res) == Views(res)
    {
      if res != [] {
        var init, r := res[..|res| - 1], res[|res| - 1];
        ContributionsWithoutSharing(init);
        FirstPropsFound(init, r.uri);
        assert Views(res) == Views(init) + [View(r)];
      }
    }
  }

  ghost function Take(res: set<Resource>): (s: Snapshot)
    reads res, PropsOf(res)
    ensures forall r :: r in res ==> r in s.related && r in s.props && s.related[r] == r.related && s.props[r] == r.props
    ensures forall p :: p in PropsOf(res) ==> p in s.values && s.values[p] == PropsView(p)
  {
    Snapshot(map r | r in res :: r.related,
             map r | r in res :: r.props,
             map p | p in PropsOf(res) :: PropsView(p))
  }

  /** Adds the related URIs of a duplicate that the stored resource lacks. */
  method MergeRelated(stored: Resource, extra: seq<string>)
    modifies stored`related
    ensures stored.related == AppendNew(old(stored.related), extra, Same<string>)
  {
    assert extra[..0] == [];
    for i := 0 to |extra|
      invariant stored.related == AppendNew(old(stored.related), extra[..i], Same<string>)
    {
      AppendNewStep(old(stored.related), extra, Same<string>, i);
      HasSame(stored.related, extra[i]);
      if extra[i] !in stored.related {
        stored.related := stored.related + [extra[i]];
      }
    }
    assert extra[..|extra|] == extra;
  }

  /** Merges the properties of a duplicate into the stored properties. */
  method MergeInto(stored: InstanceProperties, dup: InstanceProperties)
    modifies stored
    ensures stored != dup ==> PropsView(stored) == MergeProps(old(PropsView(stored)), old(PropsView(dup)))
    ensures stored == dup ==> PropsView(stored) == old(PropsView(stored))
  {
    stored.roles := stored.roles + dup.roles;
    if dup.hostname != "" {
      stored.hostname := dup.hostname;
    }
    ghost var base := stored.apps;
    var known := AppNumbers(stored.apps);
    AppendApps(stored, dup.apps, known);
    if stored == dup {
      AppendNewAbsorbs(base, base, AppName);
    }
  }

  /** The numbers of the applications of a resource by name. */
  method AppNumbers(apps: seq<App>) returns (known: map<string, string>)
    ensures forall n :: n in known <==> HasKey(apps, AppName, n)
  {
    known := map[];
    for i := 0 to |apps|
      invariant forall n :: n in known <==> HasKey(apps[..i], AppName, n)
    {
      var app := apps[i];
      forall n {
        HasKeyAppend(apps[..i], app, AppName, n);
      }
      TakeSnoc(apps, i);
      known := known[app.name := app.number];
    }
    TakeAll(apps);
  }

  /** Adds the applications whose names are not known yet. */
  method AppendApps(stored: InstanceProperties, extra: seq<App>, known: map<string, string>)
    requires forall n :: n in known <==> HasKey(stored.apps, AppName, n)
    modifies stored`apps
    ensures stored.apps == AppendNew(old(stored.apps), extra, AppName)
  {
    var apps := known;
    TakeAll(extra);
    for i := 0 to |extra|
      invariant stored.apps == AppendNew(old(stored.apps), extra[..i], AppName)
      invariant forall n :: n in apps <==> HasKey(stored.apps, AppName, n)
    {
      var app := extra[i];
      AppendNewStep(old(stored.apps), extra, AppName, i);
      if app.name !in apps {
        forall n {
          HasKeyAppend(stored.apps, app, AppName, n);
        }
        stored.apps := stored.apps + [app];
        apps := apps[app.name := app.number];
      }
    }
  }

  /** Merges a duplicate entry into the resource stored for its URI. */
  method MergeDuplicate(stored: Resource, r: Resource)
    modifies stored`related, stored`props, stored.props
    ensures stored.related == AppendNew(old(stored.related), old(r.related), Same<string>)
    ensures stored.props == if old(stored.props) == null then old(r.props) else old(stored.props)
    ensures old(stored.props) == null && old(r.props) != null ==> PropsView(old(r.props)) == old(PropsView(r.props))
    ensures old(stored.props) != null ==>
              PropsView(old(stored.props)) ==
              if old(r.props) == null || old(r.props) == old(stored.props)
              then old(PropsView(stored.props))
              else MergeProps(old(PropsView(stored.props)), old(PropsView(r.props)))
  {
    MergeRelated(stored, r.related);
    if r.props != null {
      if stored.props == null {
        stored.props := r.props;
      } else {
        MergeInto(stored.props, r.props);
      }
    }
  }

  /** What an entry contributes in the current state. */
  ghost function Contribution(r: Resource, stored: InstanceProperties?): ResourceValue
    reads r, r.props
  {
    if stored == r.props then View(r).(props := None) else View(r)
  }

  /** Every resource object outside `out`, and every properties object not stored in `out`, is as in the snapshot. */
  ghost predicate Untouched(was: Snapshot, res: seq<Resource>, out: seq<Resource>)
    requires was.Covers(res)
    reads Elements(res), Elements(out), was.values.Keys
  {
    && (forall r :: r in res && r !in out ==> r.related == was.related[r] && r.props == was.props[r])
    && (forall p :: p in was.values && (forall s :: s in out ==> s.props != p) ==> PropsView(p) == was.values[p])
  }

  /** Merging a duplicate changes the values of a list at the stored position only. */
  method MergeAt(ghost was: Snapshot, ghost res: seq<Resource>, ghost out: seq<Resource>, ghost k: nat, stored: Resource,
                 r: Resource)
    requires was.Covers(res) && Untouched(was, res, out)
    requires k < |out| && out[k] == stored && stored.uri == r.uri
    requires DistinctKeys(out, UriOf)
    requires Coherent(Elements(out))
    requires r.props != null ==> forall s :: s in out && s.props == r.props ==> s == stored
    modifies stored`related, stored`props, stored.props
    ensures Views(out) == old(Views(out))[k := Merge(old(View(stored)), old(Contribution(r, stored.props)))]
    ensures stored.props == if old(stored.props) == null then old(r.props) else old(stored.props)
    ensures old(stored.related) <= stored.related
    ensures forall s :: s in out && s != stored ==> s.related == old(s.related) && s.props == old(s.props)
    ensures Untouched(was, res, out)
  {
    ghost var before := View(stored);
    ghost var dup := Contribution(r, stored.props);
    AppendNewKeys(stored.related, r.related, Same<string>);
    MergeDuplicate(stored, r);
    assert View(stored) == Merge(before, dup);
    forall i | 0 <= i < |out| && i != k
      ensures View(out[i]) == old(View(out[i]))
    {
      assert UriOf(out[i]) != UriOf(out[k]);
    }
  }

  /** The kept objects hold the first properties of their URI and at least their own related URIs. */
  ghost predicate Stored(was: Snapshot, seen: seq<Resource>, out: seq<Resource>)
    requires was.Covers(seen)
    reads Elements(out)
  {
    forall r :: r in out ==>
      && r in seen
      && r.props == was.FirstProps(seen, r.uri)
      && (was.props[r] != null ==> r.props == was.props[r])
      && was.related[r] <= r.related
  }

  /** Two kept objects never share a properties object. */
  lemma StoredApart(was: Snapshot, res: seq<Resource>, seen: seq<Resource>, out: seq<Resource>, r: Resource, s: Resource)
    requires was.Covers(res) && was.Coherent(res) && (forall x :: x in seen ==> x in res)
    requires was.Covers(seen) && Stored(was, seen, out) && s in out && r in res
    requires was.props[r] != null && was.props[r] == s.props
    ensures r.uri == s.uri
  {
    was.FirstPropsFound(seen, s.uri);
    var x :| x in seen && x.uri == s.uri && was.props[x] == s.props;
    var i, j :| 0 <= i < |res| && res[i] == x && 0 <= j < |res| && res[j] == r;
  }

  lemma DistinctUri(out: seq<Resource>, r: Resource, s: Resource)
    requires DistinctKeys(out, UriOf) && r in out && s in out && r.uri == s.uri
    ensures r == s
  {
    var i, j :| 0 <= i < |out| && out[i] == r && 0 <= j < |out| && out[j] == s;
    assert UriOf(out[i]) == UriOf(out[j]);
  }

  /** A duplicate contributes what it held before the list was touched, whether or not it is the stored object itself. */
  lemma ContributionKept(was: Snapshot, res: seq<Resource>, out: seq<Resource>, stored: Resource, i: nat)
    requires was.Covers(res) && was.Coherent(res) && i < |res|
    requires Untouched(was, res, out) && Stored(was, res[..i], out)
    requires DistinctKeys(out, UriOf) && stored in out && stored.uri == res[i].uri
    ensures Merge(View(stored), Contribution(res[i], stored.props))
         == Merge(View(stored), was.Contribution(res[i], was.FirstProps(res[..i], res[i].uri)))
  {
    var r := res[i];
    if r in out {
      DistinctUri(out, r, stored);
      forall x | x in stored.related ensures HasKey(stored.related, Same<string>, Same(x)) {
        HasSame(stored.related, x);
      }
      AppendNewAbsorbs(stored.related, stored.related, Same<string>);
      AppendNewAbsorbs(stored.related, was.related[r], Same<string>);
    } else if r.props != null && r.props != stored.props {
      forall s | s in out ensures s.props != r.props {
        if s.props == r.props {
          StoredApart(was, res, res[..i], out, r, s);
          DistinctUri(out, s, stored);
        }
      }
    }
  }

  /** One more entry of the list only matters to the stored properties of its own URI. */
  lemma FirstPropsStep(was: Snapshot, res: seq<Resource>, i: nat, uri: string)
    requires was.Covers(res) && i < |res|
    ensures was.FirstProps(res[..i + 1], uri)
         == var p := was.FirstProps(res[..i], uri);
            if p != null || res[i].uri != uri then p else was.props[res[i]]
  {
    assert res[..i + 1][..i] == res[..i];
  }

  /** A resource with a new URI has had no entry so far and is still as it was. */
  lemma NewEntryKept(was: Snapshot, res: seq<Resource>, out: seq<Resource>, i: nat)
    requires was.Covers(res) && was.Coherent(res) && i < |res|
    requires Untouched(was, res, out) && Stored(was, res[..i], out)
    requires forall r :: r in out ==> r.uri != res[i].uri
    requires forall r :: r in res[..i] ==> r.uri != res[i].uri
    ensures was.FirstProps(res[..i], res[i].uri) == null
    ensures View(res[i]) == was.Contribution(res[i], null)
  {
    var r := res[i];
    was.FirstPropsFound(res[..i], r.uri);
    if was.props[r] != null {
      forall s | s in out ensures s.props != r.props {
        if s.props == r.props {
          StoredApart(was, res, res[..i], out, r, s);
        }
      }
    }
  }

  /** The bookkeeping after a resource with a new URI is appended. */
  lemma NewEntryStored(was: Snapshot, res: seq<Resource>, out: seq<Resource>, i: nat)
    requires was.Covers(res) && i < |res|
    requires Untouched(was, res, out) && Stored(was, res[..i], out)
    requires forall r :: r in out ==> r.uri != res[i].uri
    requires was.FirstProps(res[..i], res[i].uri) == null
    ensures Untouched(was, res, out + [res[i]]) && Stored(was, res[..i + 1], out + [res[i]])
  {
    var r := res[i];
    assert Untouched(was, res, out + [r]) by {
      assert forall s :: s in out ==> s in out + [r];
    }
    forall s | s in out + [r]
      ensures s in res[..i + 1] && s.props == was.FirstProps(res[..i + 1], s.uri)
      ensures was.props[s] != null ==> s.props == was.props[s]
      ensures was.related[s] <= s.related
    {
      FirstPropsStep(was, res, i, s.uri);
    }
  }

  lemma HasUri(res: seq<Resource>, uri: string)
    ensures HasKey(res, UriOf, uri) <==> exists r :: r in res && r.uri == uri
  {
    if HasKey(res, UriOf, uri) {
      var k :| 0 <= k < |res| && UriOf(res[k]) == uri;
      assert res[k] in res && res[k].uri == uri;
    }
    if exists r :: r in res && r.uri == uri {
      var r :| r in res && r.uri == uri;
      var k :| 0 <= k < |res| && res[k] == r;
      assert UriOf(res[k]) == uri;
    }
  }

  /** The kept list has an object for exactly the URIs seen so far. */
  lemma KeptUris(seen: seq<Resource>, out: seq<Resource>, uri: string)
    requires out == AppendNew([], seen, UriOf)
    ensures (exists r :: r in out && r.uri == uri) <==> (exists r :: r in seen && r.uri == uri)
  {
    AppendNewKeys<Resource, string>([], seen, UriOf);
    HasUri(seen, uri);
    HasUri(out, uri);
  }

  /** One more entry inserts one more contribution. */
  lemma DedupStep(was: Snapshot, res: seq<Resource>, i: nat)
    requires was.Covers(res) && i < |res|
    ensures Dedup(was.Contributions(res[..i + 1]))
         == Insert(Dedup(was.Contributions(res[..i])), was.Contribution(res[i], was.FirstProps(res[..i], res[i].uri)))
  {
    assert res[..i + 1][..i] == res[..i];
    var cs := was.Contributions(res[..i + 1]);
    assert cs[..|cs| - 1] == was.Contributions(res[..i]);
  }

  lemma CoherentKept(was: Snapshot, res: seq<Resource>, seen: seq<Resource>, out: seq<Resource>)
    requires was.Covers(res) && was.Coherent(res) && (forall x :: x in seen ==> x in res)
    requires was.Covers(seen) && Stored(was, seen, out)
    ensures Coherent(Elements(out))
  {
    forall r, s | r in out && s in out && r.props != null && r.props == s.props
      ensures r.uri == s.uri
    {
      was.FirstPropsFound(seen, r.uri);
      var x :| x in seen && x.uri == r.uri && was.props[x] == r.props;
      StoredApart(was, res, seen, out, x, s);
    }
  }

  /** Appending a resource with a new URI inserts its value. */
  lemma InsertNew(out: seq<Resource>, r: Resource)
    requires forall s :: s in out ==> s.uri != r.uri
    ensures Views(out + [r]) == Insert(Views(out), View(r))
  {
    IndexOfUnique(Views(out), r.uri, |out|);
  }

  /** The bookkeeping after a duplicate of `stored` is absorbed. */
  lemma StoredNext(was: Snapshot, res: seq<Resource>, out: seq<Resource>, stored: Resource, i: nat)
    requires was.Covers(res) && i < |res| && res[i].uri == stored.uri
    requires forall s :: s in out ==> s in res[..i] && (was.props[s] != null ==> s.props == was.props[s]) && was.related[s] <= s.related
    requires forall s :: s in out && s.uri == stored.uri ==> s == stored
    requires forall s :: s in out && s != stored ==> s.props == was.FirstProps(res[..i], s.uri)
    requires var p := was.FirstProps(res[..i], stored.uri); stored.props == if p != null then p else was.props[res[i]]
    ensures Stored(was, res[..i + 1], out)
  {
    forall s | s in out
      ensures s in res[..i + 1] && s.props == was.FirstProps(res[..i + 1], s.uri)
    {
      FirstPropsStep(was, res, i, s.uri);
    }
  }

  /** The merge of the first `n` entries, in terms of the state before the merge. */
  ghost predicate Merged(was: Snapshot, res: seq<Resource>, n: nat, out: seq<Resource>)
    requires was.Covers(res) && n <= |res|
    reads Elements(res), Elements(out), PropsOf(Elements(out)), was.values.Keys
  {
    && out == AppendNew([], res[..n], UriOf)
    && Views(out) == Dedup(was.Contributions(res[..n]))
    && Stored(was, res[..n], out)
    && Untouched(was, res, out)
  }

  /** The lookup map of the merge: each URI of the kept list leads to its object. */
  ghost predicate Indexed(uris: map<string, Resource>, out: seq<Resource>) {
    && (forall r :: r in out ==> r.uri in uris)
    && (forall u :: u in uris ==> uris[u] in out && uris[u].uri == u)
  }

  lemma IndexNew(uris: map<string, Resource>, out: seq<Resource>, r: Resource)
    requires Indexed(uris, out)
    ensures Indexed(uris[r.uri := r], out + [r])
  {
  }

  /** A resource with a new URI is appended as it is. */
  lemma Append(was: Snapshot, res: seq<Resource>, i: nat, out: seq<Resource>)
    requires was.Covers(res) && was.Coherent(res) && i < |res| && Merged(was, res, i, out)
    requires forall r :: r in out ==> r.uri != res[i].uri
    ensures Merged(was, res, i + 1, out + [res[i]])
  {
    var r := res[i];
    assert forall s :: s in res[..i] ==> s.uri != r.uri by {
      KeptUris(res[..i], out, r.uri);
    }
    assert AppendNew([], res[..i + 1], UriOf) == out + [r] by {
      AppendNewStep([], res, UriOf, i);
      HasUri(out, r.uri);
    }
    NewEntryKept(was, res, out, i);
    assert Views(out + [r]) == Dedup(was.Contributions(res[..i + 1])) by {
      InsertNew(out, r);
      DedupStep(was, res, i);
    }
    NewEntryStored(was, res, out, i);
  }

  /** The state in which a duplicate of the stored resource at position `k` is merged. */
  ghost predicate Ready(was: Snapshot, res: seq<Resource>, i: nat, out: seq<Resource>, k: nat, stored: Resource, r: Resource)
    requires was.Covers(res) && i < |res| && r == res[i] && k < |out|
    reads stored, r, Elements(out), PropsOf(Elements(out)), r.props, stored.props
  {
    && Coherent(Elements(out))
    && (forall s :: s in out && s.uri == r.uri ==> s == stored)
    && (r.props != null ==> forall s :: s in out && s.props == r.props ==> s == stored)
    && (r.props == was.props[r] || (r == stored && was.props[r] == null))
    && var v := was.Contribution(r, was.FirstProps(res[..i], r.uri));
       Insert(Views(out), v) == Views(out)[k := Merge(View(stored), Contribution(r, stored.props))]
  }

  lemma GetReady(was: Snapshot, res: seq<Resource>, i: nat, out: seq<Resource>, k: nat, stored: Resource, r: Resource)
    requires was.Covers(res) && was.Coherent(res) && i < |res| && r == res[i]
    requires Untouched(was, res, out) && Stored(was, res[..i], out) && DistinctKeys(out, UriOf)
    requires k < |out| && out[k] == stored && stored.uri == r.uri
    ensures Ready(was, res, i, out, k, stored, r)
  {
    forall s | s in out && s.uri == r.uri ensures s == stored {
      DistinctUri(out, s, stored);
    }
    CoherentKept(was, res, res[..i], out);
    ContributionKept(was, res, out, stored, i);
    InsertAt(out, k, was.Contribution(r, was.FirstProps(res[..i], r.uri)));
    forall s | s in out && r.props != null && s.props == r.props ensures s == stored {
      if r !in out {
        StoredApart(was, res, res[..i], out, r, s);
      }
    }
  }

  /** Absorbing a duplicate keeps the stored objects and their values up to date. */
  method Absorb(ghost was: Snapshot, ghost res: seq<Resource>, ghost i: nat, ghost out: seq<Resource>, stored: Resource,
                r: Resource)
    requires was.Covers(res) && was.Coherent(res) && i < |res| && r == res[i]
    requires Untouched(was, res, out) && Stored(was, res[..i], out) && DistinctKeys(out, UriOf)
    requires stored in out && stored.uri == r.uri
    modifies stored`related, stored`props, stored.props
    ensures Untouched(was, res, out) && Stored(was, res[..i + 1], out)
    ensures Views(out) == Insert(old(Views(out)), was.Contribution(r, was.FirstProps(res[..i], r.uri)))
  {
    ghost var k :| 0 <= k < |out| && out[k] == stored;
    GetReady(was, res, i, out, k, stored, r);
    MergeAt(was, res, out, k, stored, r);
    assert was.related[stored] <= old(stored.related) <= stored.related;
    StoredNext(was, res, out, stored, i);
  }

  /** One step of the merge. */
  method Visit(ghost was: Snapshot, ghost res: seq<Resource>, ghost i: nat, r: Resource, out: seq<Resource>,
               uris: map<string, Resource>)
    returns (out': seq<Resource>, uris': map<string, Resource>)
    requires was.Covers(res) && was.Coherent(res) && i < |res| && r == res[i] && Merged(was, res, i, out) && Indexed(uris, out)
    modifies Elements(out), PropsOf(Elements(out))
    ensures Merged(was, res, i + 1, out') && Indexed(uris', out')
  {
    if r.uri !in uris {
      Append(was, res, i, out);
      IndexNew(uris, out, r);
      uris' := uris[r.uri := r];
      out' := out + [r];
    } else {
      uris', out' := uris, out;
      assert AppendNew([], res[..i + 1], UriOf) == out by {
        AppendNewStep([], res, UriOf, i);
        HasUri(out, r.uri);
      }
      assert DistinctKeys(out, UriOf) by {
        AppendNewDistinct([], res[..i], UriOf);
      }
      DedupStep(was, res, i);
      Absorb(was, res, i, out, uris[r.uri], r);
    }
  }

  lemma InsertAt(out: seq<Resource>, k: nat, v: ResourceValue)
    requires DistinctKeys(out, UriOf) && k < |out| && v.uri == out[k].uri
    ensures Insert(Views(out), v) == Views(out)[k := Merge(View(out[k]), v)]
  {
    forall j | 0 <= j < k ensures Views(out)[j].uri != v.uri {
      assert UriOf(out[j]) != UriOf(out[k]);
    }
    IndexOfUnique(Views(out), v.uri, k);
  }

  lemma TakeCoherent(res: seq<Resource>)
    requires Coherent(Elements(res))
    ensures var was := Take(Elements(res)); was.Covers(res) && was.Coherent(res) && Merged(was, res, 0, [])
  {
    assert res[..0] == [];
  }

  ghost predicate AllUnite(out: seq<ResourceValue>, vs: seq<ResourceValue>) {
    forall k :: 0 <= k < |out| ==> Unites(out[k], vs)
  }

  ghost predicate AllKeepRecords(out: seq<ResourceValue>, vs: seq<ResourceValue>) {
    forall k :: 0 <= k < |out| ==> KeepsRecords(out[k], vs)
  }

  lemma TakeUnites(res: seq<Resource>)
    ensures var was := Take(Elements(res));
      was.Covers(res) && AllUnite(Dedup(was.Contributions(res)), Views(res)) && AllKeepRecords(Dedup(was.Contributions(res)), Views(res))
  {
    var was := Take(Elements(res));
    forall i | 0 <= i < |res| ensures was.Views(res)[i] == Views(res)[i] {
      assert res[i] in Elements(res);
    }
    assert was.Views(res) == Views(res);
    forall k | 0 <= k < |Dedup(was.Contributions(res))| ensures Unites(Dedup(was.Contributions(res))[k], Views(res)) {
      was.MergedUnites(res, k);
    }
    forall k | 0 <= k < |Dedup(was.Contributions(res))| ensures KeepsRecords(Dedup(was.Contributions(res))[k], Views(res)) {
      was.MergedKeepsRecords(res, k);
    }
  }

  lemma StoredFromList(was: Snapshot, res: seq<Resource>, i: nat, out: seq<Resource>)
    requires was.Covers(res) && i <= |res| && Stored(was, res[..i], out)
    ensures forall r :: r in out ==> r in res && (r.props != null ==> exists s :: s in res && was.props[s] == r.props)
  {
    forall r | r in out && r.props != null
      ensures exists s :: s in res && was.props[s] == r.props
    {
      was.FirstPropsFound(res[..i], r.uri);
    }
  }

  /**
   * Removes duplicate URIs in place. The first resource object of each URI is
   * kept and absorbs the others; no other resource object changes, and no
   * properties object other than the ones kept in the result.
   */
  method RemoveDuplicates(res: seq<Resource>) returns (out: seq<Resource>)
    requires Coherent(Elements(res))
    modifies Elements(res), PropsOf(Elements(res))
    ensures out == AppendNew([], res, UriOf) && (forall r :: r in out ==> r in res)
    ensures Views(out) == Dedup(old(Take(Elements(res))).Contributions(res))
    ensures AllUnite(Views(out), old(Views(res))) && AllKeepRecords(Views(out), old(Views(res)))
    ensures Stored(old(Take(Elements(res))), res, out)
    ensures Untouched(old(Take(Elements(res))), res, out)
    ensures Coherent(Elements(out))
  {
    out := [];
    var uris: map<string, Resource> := map[];
    ghost var was := Take(Elements(res));
    TakeCoherent(res);
    TakeUnites(res);
    for i := 0 to |res|
      invariant forall r :: r in out ==> r in res
      invariant forall r :: r in out && r.props != null ==> r.props in old(PropsOf(Elements(res)))
      invariant Merged(was, res, i, out) && Indexed(uris, out)
    {
      out, uris := Visit(was, res, i, res[i], out, uris);
      StoredFromList(was, res, i + 1, out);
    }
    assert res[..|res|] == res;
    CoherentKept(was, res, res, out);
  }
}

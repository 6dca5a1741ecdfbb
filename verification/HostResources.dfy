/**
 * Merging the same host resources into several components
 * (internal/system/discovery.go, addHostResourcesforSite): the components do
 * not learn anything from each other, even if they share resource objects.
 */
module HostResources {
  import opened Common
  import opened Resources
  import opened FactSets

  // ----- states of the heap -------------------------------------------------

  ghost function RelatedFacts(s: Snapshot, r: Resource): set<Fact> {
    if r in s.related then set u | u in s.related[r] :: RelatedTo(u) else {}
  }

  ghost function PropsFacts(s: Snapshot, p: InstanceProperties?): set<Fact> {
    if p in s.values then PropFacts(Some(s.values[p])) else {}
  }

  ghost function PropsOfEntry(s: Snapshot, r: Resource): InstanceProperties? {
    if r in s.props then s.props[r] else null
  }

  /** What an entry says in a state. */
  ghost function Says(s: Snapshot, r: Resource): set<Fact> {
    RelatedFacts(s, r) + PropsFacts(s, PropsOfEntry(s, r))
  }

  /** What the entries with a URI say together in a state. */
  ghost function SaysOf(s: Snapshot, res: seq<Resource>, uri: string): set<Fact> {
    set r, f | r in res && r.uri == uri && f in Says(s, r) :: f
  }

  lemma SaysIsFacts(s: Snapshot, r: Resource)
    requires s.Covers([r])
    ensures Says(s, r) == Facts(s.View(r))
  {
    assert r in [r];
  }

  lemma SaysOfIsAllFacts(s: Snapshot, res: seq<Resource>, uri: string)
    requires s.Covers(res)
    ensures SaysOf(s, res, uri) == AllFacts(s.Views(res), uri)
  {
    forall r | r in res ensures s.Covers([r]) && Says(s, r) == Facts(s.View(r)) {
      SaysIsFacts(s, r);
    }
    forall f | f in SaysOf(s, res, uri) ensures f in AllFacts(s.Views(res), uri) {
      var r :| r in res && r.uri == uri && f in Says(s, r);
      var i :| 0 <= i < |res| && res[i] == r;
      assert s.Views(res)[i] == s.View(r);
    }
    forall f | f in AllFacts(s.Views(res), uri) ensures f in SaysOf(s, res, uri) {
      var v :| v in s.Views(res) && v.uri == uri && f in Facts(v);
      var i :| 0 <= i < |res| && s.Views(res)[i] == v;
      assert res[i] in res;
    }
  }

  lemma SaysOfConcat(s: Snapshot, a: seq<Resource>, b: seq<Resource>, uri: string)
    ensures SaysOf(s, a + b, uri) == SaysOf(s, a, uri) + SaysOf(s, b, uri)
  {
  }

  ghost function PropsAmong(s: Snapshot, res: seq<Resource>): set<InstanceProperties> {
    set r | r in res && r in s.props && s.props[r] != null :: s.props[r]
  }

  /** A snapshot of all resources of a pool, in which properties are shared within a URI only. */
  ghost predicate Whole(s: Snapshot, pool: set<Resource>) {
    && s.related.Keys == pool && s.props.Keys == pool
    && (forall r :: r in pool && s.props[r] != null ==> s.props[r] in s.values)
    && (forall r, x :: r in pool && x in pool && s.props[r] != null && s.props[r] == s.props[x] ==> r.uri == x.uri)
  }

  /** How removing duplicates from a list of resources of a pool changes the state. */
  ghost predicate Removed(s: Snapshot, s': Snapshot, pool: set<Resource>, res: seq<Resource>, out: seq<Resource>) {
    && Whole(s, pool) && Whole(s', pool) && (forall r :: r in res ==> r in pool) && s.Covers(res)
    && out == AppendNew([], res, UriOf)
    && (forall r :: r in pool && r !in out ==> s'.related[r] == s.related[r] && s'.props[r] == s.props[r])
    && (forall r :: r in out ==> r in res && s'.props[r] == s.FirstProps(res, r.uri))
    && (forall r :: r in out && s.props[r] != null ==> s'.props[r] == s.props[r])
    && (forall p :: p in s.values && (forall r :: r in out ==> s'.props[r] != p) ==> p in s'.values && s'.values[p] == s.values[p])
    && (forall r :: r in out ==> Says(s', r) == SaysOf(s, res, r.uri))
    && (forall r :: r in out ==> KeepsApps(s, s', res, r))
  }

  /** The application records of properties in a state. */
  ghost function AppsIn(s: Snapshot, p: InstanceProperties?): seq<App> {
    if p in s.values then s.values[p].apps else []
  }

  /** The first application record with a name among the entries with a URI, in list order. */
  ghost function FirstIn(s: Snapshot, res: seq<Resource>, uri: string, n: string): Option<App> {
    if res == [] then None
    else
      var a, r := FirstIn(s, res[..|res| - 1], uri, n), res[|res| - 1];
      if a.Some? then a else if r.uri == uri then AppOf(AppsIn(s, PropsOfEntry(s, r)), n) else None
  }

  /** A kept entry has, for every name, the first record of the list, after the records its properties had. */
  ghost predicate KeepsApps(s: Snapshot, s': Snapshot, res: seq<Resource>, r: Resource) {
    && (forall n :: AppOf(AppsIn(s', PropsOfEntry(s', r)), n) == FirstIn(s, res, r.uri, n))
    && AppsIn(s, PropsOfEntry(s', r)) <= AppsIn(s', PropsOfEntry(s', r))
  }

  // ----- what a merge changes -----------------------------------------------

  /** A host entry that is kept has a URI that the component's own list lacks. */
  lemma KeptHostIsNew(own: seq<Resource>, host: seq<Resource>, h: Resource)
    requires h in AppendNew([], own + host, UriOf) && h !in own
    ensures forall r :: r in own ==> r.uri != h.uri
  {
    var none: seq<Resource> := [];
    var base, out := AppendNew(none, own, UriOf), AppendNew(none, own + host, UriOf);
    AppendNewSplit(none, own, host, UriOf);
    AppendNewKeys(base, host, UriOf);
    AppendNewKeys(none, own, UriOf);
    AppendNewDistinct(none, own + host, UriOf);
    assert base <= out && forall r :: r in base ==> r in own;
    NotInPrefix(base, out, h);
    HasUri(base, h.uri);
    HasUri(own, h.uri);
  }

  lemma NotInPrefix(base: seq<Resource>, out: seq<Resource>, h: Resource)
    requires base <= out && DistinctKeys(out, UriOf) && h in out && h !in base
    ensures forall r :: r in base ==> r.uri != h.uri
  {
    var j :| 0 <= j < |out| && out[j] == h;
    forall i | 0 <= i < |base| ensures base[i].uri != h.uri {
      assert base[i] == out[i] && base[i] in base;
      assert UriOf(out[i]) != UriOf(out[j]);
    }
  }

  lemma {:induction false} FirstPropsConcat(s: Snapshot, a: seq<Resource>, b: seq<Resource>, uri: string)
    requires s.Covers(a + b) && s.Covers(a) && s.Covers(b)
    ensures s.FirstProps(a + b, uri) == if s.FirstProps(a, uri) != null then s.FirstProps(a, uri) else s.FirstProps(b, uri)
  {
    if b == [] {
      assert a + b == a;
    } else {
      var init := b[..|b| - 1];
      assert (a + b)[..|a + b| - 1] == a + init;
      FirstPropsConcat(s, a, init, uri);
    }
  }

  /** The first properties of a URI are among those of the list. */
  lemma FirstPropsAmong(s: Snapshot, res: seq<Resource>, uri: string)
    requires s.Covers(res)
    ensures s.FirstProps(res, uri) == null || s.FirstProps(res, uri) in PropsAmong(s, res)
  {
    s.FirstPropsFound(res, uri);
  }

  /** In a list with distinct URIs, one entry says all there is about its URI. */
  lemma OneEntrySays(s: Snapshot, own: seq<Resource>, r: Resource)
    requires DistinctKeys(own, UriOf) && r in own && s.Covers(own)
    ensures SaysOf(s, own, r.uri) == Says(s, r) && s.FirstProps(own, r.uri) == s.props[r]
  {
    forall x | x in own && x.uri == r.uri ensures x == r {
      DistinctUri(own, x, r);
    }
    s.FirstPropsFound(own, r.uri);
  }

  lemma NoEntrySays(s: Snapshot, own: seq<Resource>, uri: string)
    requires s.Covers(own) && forall r :: r in own ==> r.uri != uri
    ensures SaysOf(s, own, uri) == {} && s.FirstProps(own, uri) == null
  {
    s.FirstPropsFound(own, uri);
  }

  /**
   * What may become of an entry: it keeps its properties, or takes over some of the
   * host's if it had none, and learns no more than the host's entries say about its URI.
   */
  ghost predicate Learns(s: Snapshot, s': Snapshot, host: seq<Resource>, r: Resource) {
    && (PropsOfEntry(s', r) == PropsOfEntry(s, r) || (PropsOfEntry(s, r) == null && PropsOfEntry(s', r) in PropsAmong(s, host)))
    && Says(s, r) <= Says(s', r) <= Says(s, r) + SaysOf(s, host, r.uri)
  }

  ghost predicate AllLearn(s: Snapshot, s': Snapshot, pool: set<Resource>, host: seq<Resource>) {
    forall r :: r in pool ==> Learns(s, s', host, r)
  }

  lemma KeptOwn(s: Snapshot, s': Snapshot, pool: set<Resource>, own: seq<Resource>, host: seq<Resource>,
                out: seq<Resource>, r: Resource)
    requires Removed(s, s', pool, own + host, out) && s.Covers(own) && s.Covers(host) && DistinctKeys(own, UriOf)
    requires r in out && r in own
    ensures Learns(s, s', host, r)
  {
    SaysOfConcat(s, own, host, r.uri);
    OneEntrySays(s, own, r);
    FirstPropsConcat(s, own, host, r.uri);
    FirstPropsAmong(s, host, r.uri);
  }

  lemma KeptHost(s: Snapshot, s': Snapshot, pool: set<Resource>, own: seq<Resource>, host: seq<Resource>,
                 out: seq<Resource>, r: Resource)
    requires Removed(s, s', pool, own + host, out) && s.Covers(own) && s.Covers(host)
    requires r in out && r !in own
    ensures Learns(s, s', host, r)
  {
    KeptHostIsNew(own, host, r);
    SaysOfConcat(s, own, host, r.uri);
    NoEntrySays(s, own, r.uri);
    FirstPropsConcat(s, own, host, r.uri);
    FirstPropsAmong(s, host, r.uri);
    assert r in own + host;
  }

  lemma PropsAreNoRelations(s: Snapshot, p: InstanceProperties?, f: Fact)
    requires f in PropsFacts(s, p)
    ensures !f.RelatedTo?
  {
  }

  /** Kept properties still say what they said. */
  lemma PropsSayMore(s: Snapshot, s': Snapshot, res: seq<Resource>, y: Resource, x: Resource)
    requires Says(s', x) == SaysOf(s, res, y.uri) && y in res
    ensures PropsFacts(s, PropsOfEntry(s, y)) <= PropsFacts(s', PropsOfEntry(s', x))
  {
    forall f | f in PropsFacts(s, PropsOfEntry(s, y)) ensures f in PropsFacts(s', PropsOfEntry(s', x)) {
      PropsAreNoRelations(s, PropsOfEntry(s, y), f);
      assert f in Says(s, y);
      assert f in Says(s', x);
    }
  }

  /** Kept properties say what they said and what the host said, if the component had no other properties for the URI. */
  lemma PropsSayLess(s: Snapshot, s': Snapshot, own: seq<Resource>, host: seq<Resource>, x: Resource, uri: string)
    requires Says(s', x) == SaysOf(s, own + host, uri)
    requires forall r :: r in own && r.uri == uri ==> PropsFacts(s, PropsOfEntry(s, r)) <= PropsFacts(s, PropsOfEntry(s', x))
    ensures PropsFacts(s', PropsOfEntry(s', x)) <= PropsFacts(s, PropsOfEntry(s', x)) + SaysOf(s, host, uri)
  {
    SaysOfConcat(s, own, host, uri);
    forall f | f in PropsFacts(s', PropsOfEntry(s', x)) && f !in SaysOf(s, host, uri) ensures f in PropsFacts(s, PropsOfEntry(s', x)) {
      PropsAreNoRelations(s', PropsOfEntry(s', x), f);
      assert f in SaysOf(s, own, uri);
    }
  }

  /** The component's own entry for a URI has the properties kept for it, or none. */
  lemma OwnPropsAreKept(s: Snapshot, own: seq<Resource>, host: seq<Resource>, uri: string)
    requires s.Covers(own + host) && s.Covers(own) && s.Covers(host) && DistinctKeys(own, UriOf)
    ensures forall r :: r in own && r.uri == uri ==> s.props[r] == null || s.props[r] == s.FirstProps(own + host, uri)
  {
    FirstPropsConcat(s, own, host, uri);
    forall r | r in own && r.uri == uri ensures s.props[r] == null || s.props[r] == s.FirstProps(own + host, uri) {
      OneEntrySays(s, own, r);
    }
  }

  /** Removing duplicates from any list makes no entry forget what it said. */
  lemma NothingForgotten(s: Snapshot, s': Snapshot, pool: set<Resource>, res: seq<Resource>, out: seq<Resource>, r: Resource)
    requires Removed(s, s', pool, res, out) && r in pool
    ensures Says(s, r) <= Says(s', r)
  {
    if r !in out {
      if x :| x in out && s'.props[x] == s.props[r] && s.props[r] != null {
        s.FirstPropsFound(res, x.uri);
        var y :| y in res && y.uri == x.uri && s.props[y] == s'.props[x];
        PropsSayMore(s, s', res, y, x);
      }
    }
  }

  /** What becomes of the properties kept for an entry. */
  lemma KeptProps(s: Snapshot, s': Snapshot, pool: set<Resource>, own: seq<Resource>, host: seq<Resource>,
                  out: seq<Resource>, x: Resource)
    requires Removed(s, s', pool, own + host, out) && s.Covers(own) && s.Covers(host) && DistinctKeys(own, UriOf)
    requires x in out && s'.props[x] != null
    ensures var p := s'.props[x]; PropsFacts(s, p) <= PropsFacts(s', p) <= PropsFacts(s, p) + SaysOf(s, host, x.uri)
  {
    s.FirstPropsFound(own + host, x.uri);
    var y :| y in own + host && y.uri == x.uri && s.props[y] == s'.props[x];
    PropsSayMore(s, s', own + host, y, x);
    OwnPropsAreKept(s, own, host, x.uri);
    PropsSayLess(s, s', own, host, x, x.uri);
  }

  lemma NotKept(s: Snapshot, s': Snapshot, pool: set<Resource>, own: seq<Resource>, host: seq<Resource>,
                out: seq<Resource>, r: Resource)
    requires Removed(s, s', pool, own + host, out) && s.Covers(own) && s.Covers(host) && DistinctKeys(own, UriOf)
    requires r in pool && r !in out
    ensures Learns(s, s', host, r)
  {
    if x :| x in out && s'.props[x] == s.props[r] && s.props[r] != null {
      assert x in own + host && x.uri == r.uri;
      KeptProps(s, s', pool, own, host, out, x);
    }
  }

  lemma OneMergeTeaches(s: Snapshot, s': Snapshot, pool: set<Resource>, own: seq<Resource>, host: seq<Resource>, out: seq<Resource>)
    requires Removed(s, s', pool, own + host, out) && s.Covers(own) && s.Covers(host) && DistinctKeys(own, UriOf)
    ensures AllLearn(s, s', pool, host)
  {
    forall r | r in pool ensures Learns(s, s', host, r) {
      if r !in out {
        NotKept(s, s', pool, own, host, out, r);
      } else if r in own {
        KeptOwn(s, s', pool, own, host, out, r);
      } else {
        KeptHost(s, s', pool, own, host, out, r);
      }
    }
  }

  // ----- merging the host into several components ----------------------------

  /** Together the host's entries say what they always said. */
  lemma HostSays(s: Snapshot, s': Snapshot, pool: set<Resource>, host: seq<Resource>, uri: string)
    requires AllLearn(s, s', pool, host) && forall h :: h in host ==> h in pool
    ensures SaysOf(s', host, uri) == SaysOf(s, host, uri)
  {
    forall h | h in host && h.uri == uri ensures Says(s, h) <= Says(s', h) <= SaysOf(s, host, uri) {
      assert Learns(s, s', host, h);
    }
  }

  lemma HostProps(s: Snapshot, s': Snapshot, pool: set<Resource>, host: seq<Resource>)
    requires Whole(s, pool) && Whole(s', pool) && AllLearn(s, s', pool, host) && forall h :: h in host ==> h in pool
    ensures PropsAmong(s', host) <= PropsAmong(s, host)
  {
    forall p | p in PropsAmong(s', host) ensures p in PropsAmong(s, host) {
      var h :| h in host && h in s'.props && s'.props[h] == p;
      assert Learns(s, s', host, h);
    }
  }

  lemma LearnOn(s: Snapshot, s': Snapshot, s'': Snapshot, pool: set<Resource>, host: seq<Resource>)
    requires Whole(s, pool) && Whole(s', pool) && forall h :: h in host ==> h in pool
    requires AllLearn(s, s', pool, host) && AllLearn(s', s'', pool, host)
    ensures AllLearn(s, s'', pool, host)
  {
    HostProps(s, s', pool, host);
    forall r | r in pool ensures Learns(s, s'', host, r) {
      HostSays(s, s', pool, host, r.uri);
      assert Learns(s, s', host, r) && Learns(s', s'', host, r);
    }
  }

  /** Lists of a pool, each with distinct URIs, and the host's resources. They may share objects in any way. */
  ghost predicate Lists<C>(s: Snapshot, was: map<C, seq<Resource>>, host: seq<Resource>, pool: set<Resource>) {
    && Whole(s, pool) && (forall h :: h in host ==> h in pool)
    && (forall c :: c in was ==> DistinctKeys(was[c], UriOf) && forall r :: r in was[c] ==> r in pool)
  }

  /** The entries of a merged list say what the component's own entries and the host's said before all merges. */
  ghost predicate Told(s0: Snapshot, s: Snapshot, own: seq<Resource>, host: seq<Resource>) {
    forall r :: r in AppendNew([], own + host, UriOf) ==> Says(s, r) == SaysOf(s0, own + host, r.uri)
  }

  /** The state after the host was merged into the lists of some components, in terms of the state before all merges. */
  ghost predicate Sound<C>(s0: Snapshot, s: Snapshot, was: map<C, seq<Resource>>, host: seq<Resource>, pool: set<Resource>,
                           done: set<C>) {
    && Whole(s, pool) && AllLearn(s0, s, pool, host)
    && forall c :: c in was && c in done ==> Told(s0, s, was[c], host)
  }

  lemma SoundAtFirst<C>(s: Snapshot, was: map<C, seq<Resource>>, host: seq<Resource>, pool: set<Resource>)
    requires Lists(s, was, host, pool)
    ensures Sound(s, s, was, host, pool, {})
  {
  }

  /** The entries of a list and the host's entries together: they learn no more than the host said. */
  lemma BothSay(s: Snapshot, s': Snapshot, pool: set<Resource>, own: seq<Resource>, host: seq<Resource>, uri: string)
    requires AllLearn(s, s', pool, host) && (forall h :: h in host ==> h in pool) && forall r :: r in own ==> r in pool
    ensures SaysOf(s', own + host, uri) == SaysOf(s, own + host, uri)
  {
    HostSays(s, s', pool, host, uri);
    SaysOfConcat(s, own, host, uri);
    SaysOfConcat(s', own, host, uri);
    forall r | r in own && r.uri == uri ensures Says(s, r) <= Says(s', r) <= SaysOf(s, own + host, uri) {
      assert Learns(s, s', host, r);
    }
  }

  lemma ToldNow(s0: Snapshot, s: Snapshot, s': Snapshot, pool: set<Resource>, own: seq<Resource>, host: seq<Resource>,
                out: seq<Resource>)
    requires AllLearn(s0, s, pool, host) && (forall h :: h in host ==> h in pool) && (forall r :: r in own ==> r in pool)
    requires Removed(s, s', pool, own + host, out)
    ensures Told(s0, s', own, host)
  {
    forall r | r in out ensures Says(s', r) == SaysOf(s0, own + host, r.uri) {
      BothSay(s0, s, pool, own, host, r.uri);
    }
  }

  /** A merged list is not affected by the merges into other lists, even if they share its objects. */
  lemma ToldStays(s0: Snapshot, s: Snapshot, s': Snapshot, pool: set<Resource>, own: seq<Resource>, host: seq<Resource>)
    requires AllLearn(s, s', pool, host) && AllLearn(s0, s', pool, host) && Told(s0, s, own, host)
    requires (forall h :: h in host ==> h in pool) && (forall r :: r in own ==> r in pool)
    ensures Told(s0, s', own, host)
  {
    var none: seq<Resource> := [];
    AppendNewKeys(none, own + host, UriOf);
    forall r | r in AppendNew([], own + host, UriOf) ensures Says(s', r) == SaysOf(s0, own + host, r.uri) {
      assert r in own + host && Learns(s, s', host, r) && Learns(s0, s', host, r);
      SaysOfConcat(s0, own, host, r.uri);
    }
  }

  /** One more merge, into a list that may have been merged before. */
  lemma SoundStep<C>(s0: Snapshot, s: Snapshot, s': Snapshot, was: map<C, seq<Resource>>, host: seq<Resource>,
                     pool: set<Resource>, done: set<C>, c: C, out: seq<Resource>)
    requires Lists(s0, was, host, pool) && Sound(s0, s, was, host, pool, done)
    requires c in was && Removed(s, s', pool, was[c] + host, out)
    ensures Sound(s0, s', was, host, pool, done + {c})
  {
    OneMergeTeaches(s, s', pool, was[c], host, out);
    LearnOn(s0, s, s', pool, host);
    forall d | d in was && d in done + {c} ensures Told(s0, s', was[d], host) {
      if d == c {
        ToldNow(s0, s, s', pool, was[c], host, out);
      } else {
        ToldStays(s0, s, s', pool, was[d], host);
      }
    }
  }

  /**
   * Once the host was merged into a list, every entry of it unites exactly what the
   * entries of that list and of the host said before all merges.
   */
  lemma SoundMeans<C>(s0: Snapshot, was: map<C, seq<Resource>>, host: seq<Resource>, pool: set<Resource>, done: set<C>, c: C)
    requires Lists(s0, was, host, pool) && Sound(s0, Take(pool), was, host, pool, done)
    requires c in was && c in done && s0.Covers(was[c] + host)
    ensures AllUnite(Views(AppendNew([], was[c] + host, UriOf)), s0.Views(was[c] + host))
  {
    var res, out := was[c] + host, AppendNew([], was[c] + host, UriOf);
    var none: seq<Resource> := [];
    AppendNewKeys(none, res, UriOf);
    forall k | 0 <= k < |out| ensures Unites(Views(out)[k], s0.Views(res)) {
      var r := out[k];
      assert r in res && r in pool;
      assert Says(Take(pool), r) == SaysOf(s0, res, r.uri);
      NowSays(pool, r);
      SaysOfIsAllFacts(s0, res, r.uri);
      UnitesExactly(View(r), s0.Views(res));
    }
  }

  lemma NowSays(pool: set<Resource>, r: Resource)
    requires r in pool
    ensures Says(Take(pool), r) == Facts(View(r))
  {
    var s := Take(pool);
    assert s.Covers([r]) && s.View(r) == View(r);
    SaysIsFacts(s, r);
  }

  lemma TakeWhole(pool: set<Resource>)
    requires Coherent(pool)
    ensures Whole(Take(pool), pool)
  {
  }

  // ----- one merge on the heap -----------------------------------------------

  ghost predicate Agree(b: Snapshot, s: Snapshot, res: seq<Resource>) {
    && b.Covers(res) && s.Covers(res)
    && forall r :: r in res ==> b.related[r] == s.related[r] && b.props[r] == s.props[r]
  }

  lemma {:induction false} AgreeOnFirstProps(b: Snapshot, s: Snapshot, res: seq<Resource>, uri: string)
    requires Agree(b, s, res)
    ensures b.FirstProps(res, uri) == s.FirstProps(res, uri)
  {
    if res != [] {
      AgreeOnFirstProps(b, s, res[..|res| - 1], uri);
    }
  }

  /** Nothing but the merged entries and the properties kept for them has changed since the snapshot. */
  ghost predicate OnlyMerged(s: Snapshot, pool: set<Resource>, out: seq<Resource>)
    requires Whole(s, pool)
    reads pool, Elements(out), s.values.Keys
  {
    && (forall r :: r in pool && r !in out ==> r.related == s.related[r] && r.props == s.props[r])
    && (forall p :: p in s.values && (forall r :: r in out ==> r.props != p) ==> PropsView(p) == s.values[p])
  }

  /** What removing duplicates promises about a list, in terms of a snapshot of the whole pool. */
  lemma RemovedFromPool(b: Snapshot, s: Snapshot, pool: set<Resource>, res: seq<Resource>, out: seq<Resource>)
    requires Whole(s, pool) && Coherent(pool) && (forall r :: r in res ==> r in pool) && Agree(b, s, res)
    requires out == AppendNew([], res, UriOf) && Stored(b, res, out)
    requires AllUnite(Views(out), s.Views(res)) && AllKeepRecords(Views(out), s.Views(res))
    requires OnlyMerged(s, pool, out)
    requires forall p :: p in s.values ==> exists x :: x in pool && s.props[x] == p
    ensures Removed(s, Take(pool), pool, res, out)
  {
    var s' := Take(pool);
    TakeWhole(pool);
    KeptPropsObjects(b, s, res, out);
    forall r | r in out ensures Says(s', r) == SaysOf(s, res, r.uri) {
      UnitedSays(s, pool, res, out, r);
    }
    forall r | r in out ensures KeepsApps(s, s', res, r) {
      KeptApps(s, pool, res, out, r);
    }
    OthersUsed(s, pool, out);
    assert forall r :: r in out ==> s'.props[r] == r.props;
  }

  lemma OthersUsed(s: Snapshot, pool: set<Resource>, out: seq<Resource>)
    requires Whole(s, pool) && OnlyMerged(s, pool, out)
    requires forall p :: p in s.values ==> exists x :: x in pool && s.props[x] == p
    requires forall r :: r in out ==> r in pool && (s.props[r] != null ==> r.props == s.props[r])
    ensures forall p :: p in s.values && (forall r :: r in out ==> r.props != p) ==>
      p in Take(pool).values && Take(pool).values[p] == s.values[p]
  {
    forall p | p in s.values && forall r :: r in out ==> r.props != p
      ensures p in Take(pool).values && Take(pool).values[p] == s.values[p]
    {
      StillUsed(s, pool, out, p);
    }
  }

  lemma KeptPropsObjects(b: Snapshot, s: Snapshot, res: seq<Resource>, out: seq<Resource>)
    requires Agree(b, s, res) && Stored(b, res, out)
    ensures forall r :: r in out ==>
      r in res && r.props == s.FirstProps(res, r.uri) && (s.props[r] != null ==> r.props == s.props[r])
  {
    forall r | r in out ensures r.props == s.FirstProps(res, r.uri) {
      AgreeOnFirstProps(b, s, res, r.uri);
    }
  }

  lemma {:induction false} FirstInViews(s: Snapshot, res: seq<Resource>, uri: string, n: string)
    requires s.Covers(res)
    ensures FirstApp(s.Views(res), uri, n) == FirstIn(s, res, uri, n)
  {
    if res != [] {
      var init := res[..|res| - 1];
      FirstInViews(s, init, uri, n);
      assert s.Views(res)[..|res| - 1] == s.Views(init);
    }
  }

  lemma KeptApps(s: Snapshot, pool: set<Resource>, res: seq<Resource>, out: seq<Resource>, r: Resource)
    requires s.Covers(res) && AllKeepRecords(Views(out), s.Views(res)) && r in out && r in pool && r.props == s.FirstProps(res, r.uri)
    ensures KeepsApps(s, Take(pool), res, r)
  {
    var k :| 0 <= k < |out| && out[k] == r;
    var vs := s.Views(res);
    assert Views(out)[k] == View(r) && KeepsRecords(View(r), vs);
    forall n ensures AppOf(Apps(View(r)), n) == FirstIn(s, res, r.uri, n) {
      FirstInViews(s, res, r.uri, n);
    }
    if r.props != null {
      var i := FirstPropsAt(s, res, r.uri);
      assert FirstWithProps(vs, r.uri, i);
    }
  }

  lemma {:induction false} FirstPropsAt(s: Snapshot, res: seq<Resource>, uri: string) returns (i: nat)
    requires s.Covers(res) && s.FirstProps(res, uri) != null
    ensures i < |res| && res[i].uri == uri && s.props[res[i]] == s.FirstProps(res, uri)
    ensures FirstWithProps(s.Views(res), uri, i)
  {
    var init := res[..|res| - 1];
    if s.FirstProps(init, uri) != null {
      i := FirstPropsAt(s, init, uri);
      assert s.Views(init) == s.Views(res)[..|init|];
    } else {
      i := |init|;
      s.FirstPropsFound(init, uri);
      assert forall j :: 0 <= j < |init| ==> res[j] == init[j];
    }
  }

  /** The first entry with properties has the first properties. */
  lemma FirstPropsOf(s: Snapshot, res: seq<Resource>, uri: string, i: int)
    requires s.Covers(res) && FirstWithProps(s.Views(res), uri, i)
    ensures s.FirstProps(res, uri) == s.props[res[i]] != null
  {
    s.FirstPropsFound(res, uri);
    assert s.Views(res)[i] == s.View(res[i]);
    assert res[i] in res;
    var k := FirstPropsAt(s, res, uri);
    assert k == i;
  }

  lemma UnitedSays(s: Snapshot, pool: set<Resource>, res: seq<Resource>, out: seq<Resource>, r: Resource)
    requires s.Covers(res) && AllUnite(Views(out), s.Views(res)) && r in out && r in pool
    ensures Says(Take(pool), r) == SaysOf(s, res, r.uri)
  {
    var k :| 0 <= k < |out| && out[k] == r;
    assert Views(out)[k] == View(r);
    UnitesExactly(View(r), s.Views(res));
    NowSays(pool, r);
    SaysOfIsAllFacts(s, res, r.uri);
  }

  lemma StillUsed(s: Snapshot, pool: set<Resource>, out: seq<Resource>, p: InstanceProperties)
    requires Whole(s, pool) && OnlyMerged(s, pool, out) && p in s.values && forall r :: r in out ==> r.props != p
    requires exists x :: x in pool && s.props[x] == p
    requires forall r :: r in out && r in pool && s.props[r] != null ==> r.props == s.props[r]
    ensures p in Take(pool).values && Take(pool).values[p] == s.values[p]
  {
    var x :| x in pool && s.props[x] == p;
    assert x.props == p;
  }
}

/**
 * Which application records the components end up with when the same host
 * resources are merged into several of them (internal/system/discovery.go,
 * addHostResourcesforSite): of several records with one name, the first one stays.
 */
module AppRecords {
  import opened Common
  import opened Resources
  import opened HostResources

  ghost function Records(s: Snapshot, r: Resource): seq<App> {
    AppsIn(s, PropsOfEntry(s, r))
  }

  ghost function OrElse(a: Option<App>, b: Option<App>): Option<App> {
    if a.Some? then a else b
  }

  // ----- first records ------------------------------------------------------

  lemma {:induction false} AppOfPrefix(apps: seq<App>, more: seq<App>, n: string)
    requires apps <= more
    ensures AppOf(apps, n).Some? ==> AppOf(more, n) == AppOf(apps, n)
  {
    if |apps| < |more| {
      AppOfPrefix(apps, more[..|more| - 1], n);
    } else {
      assert apps == more;
    }
  }

  lemma {:induction false} FirstInConcat(s: Snapshot, a: seq<Resource>, b: seq<Resource>, uri: string, n: string)
    ensures FirstIn(s, a + b, uri, n) == OrElse(FirstIn(s, a, uri, n), FirstIn(s, b, uri, n))
  {
    if b == [] {
      assert a + b == a;
    } else {
      assert (a + b)[..|a + b| - 1] == a + b[..|b| - 1];
      FirstInConcat(s, a, b[..|b| - 1], uri, n);
    }
  }

  lemma {:induction false} NoneIn(s: Snapshot, res: seq<Resource>, uri: string, n: string)
    requires forall r :: r in res && r.uri == uri ==> AppOf(Records(s, r), n) == None
    ensures FirstIn(s, res, uri, n) == None
  {
    if res != [] {
      NoneIn(s, res[..|res| - 1], uri, n);
    }
  }

  // ----- one merge ----------------------------------------------------------

  /**
   * What may become of the records of an entry: more are added at the end, and under
   * a name that the entry had no record for, it is the host's first one.
   */
  ghost predicate GainsRecords(s: Snapshot, s': Snapshot, host: seq<Resource>, r: Resource)
    requires s.Covers(host)
  {
    && (PropsOfEntry(s', r) == PropsOfEntry(s, r)
        || (PropsOfEntry(s, r) == null && PropsOfEntry(s', r) == s.FirstProps(host, r.uri)))
    && Records(s, r) <= Records(s', r)
    && forall n :: AppOf(Records(s, r), n).None? ==> AppOf(Records(s', r), n) in {None, FirstIn(s, host, r.uri, n)}
  }

  ghost predicate AllGain(s: Snapshot, s': Snapshot, pool: set<Resource>, host: seq<Resource>)
    requires s.Covers(host)
  {
    forall r :: r in pool ==> GainsRecords(s, s', host, r)
  }

  /** The component's own entry adds no record to those of the properties that are kept for its URI. */
  lemma OwnAddsNothing(s: Snapshot, own: seq<Resource>, host: seq<Resource>, uri: string, n: string)
    requires s.Covers(own + host) && s.Covers(own) && s.Covers(host) && DistinctKeys(own, UriOf)
    requires AppOf(AppsIn(s, s.FirstProps(own + host, uri)), n) == None
    ensures FirstIn(s, own + host, uri, n) == FirstIn(s, host, uri, n)
  {
    OwnPropsAreKept(s, own, host, uri);
    NoneIn(s, own, uri, n);
    FirstInConcat(s, own, host, uri, n);
  }

  /** The records of properties that were kept for a URI. */
  lemma KeptRecords(s: Snapshot, s': Snapshot, pool: set<Resource>, own: seq<Resource>, host: seq<Resource>,
                    out: seq<Resource>, x: Resource)
    requires Removed(s, s', pool, own + host, out) && s.Covers(own) && s.Covers(host) && DistinctKeys(own, UriOf) && x in out
    ensures var p := s'.props[x];
      && AppsIn(s, p) <= AppsIn(s', p)
      && forall n :: AppOf(AppsIn(s, p), n).None? ==> AppOf(AppsIn(s', p), n) == FirstIn(s, host, x.uri, n)
  {
    assert KeepsApps(s, s', own + host, x);
    forall n | AppOf(AppsIn(s, s'.props[x]), n).None? ensures AppOf(AppsIn(s', s'.props[x]), n) == FirstIn(s, host, x.uri, n) {
      OwnAddsNothing(s, own, host, x.uri, n);
    }
  }

  /** A kept entry without properties takes the host's first ones. */
  lemma TakesHostProps(s: Snapshot, s': Snapshot, pool: set<Resource>, own: seq<Resource>, host: seq<Resource>,
                       out: seq<Resource>, r: Resource)
    requires Removed(s, s', pool, own + host, out) && s.Covers(own) && s.Covers(host) && DistinctKeys(own, UriOf)
    requires r in out && s.props[r] == null
    ensures s'.props[r] == s.FirstProps(host, r.uri)
    ensures forall n :: FirstIn(s, own + host, r.uri, n) == FirstIn(s, host, r.uri, n)
  {
    FirstPropsConcat(s, own, host, r.uri);
    if r in own {
      OneEntrySays(s, own, r);
    } else {
      KeptHostIsNew(own, host, r);
      NoEntrySays(s, own, r.uri);
    }
    s.FirstPropsFound(own, r.uri);
    forall n ensures FirstIn(s, own + host, r.uri, n) == FirstIn(s, host, r.uri, n) {
      NoneIn(s, own, r.uri, n);
      FirstInConcat(s, own, host, r.uri, n);
    }
  }

  lemma OneMergeGains(s: Snapshot, s': Snapshot, pool: set<Resource>, own: seq<Resource>, host: seq<Resource>, out: seq<Resource>)
    requires Removed(s, s', pool, own + host, out) && s.Covers(own) && s.Covers(host) && DistinctKeys(own, UriOf)
    ensures AllGain(s, s', pool, host)
  {
    forall r | r in pool ensures GainsRecords(s, s', host, r) {
      if r in out {
        KeptGains(s, s', pool, own, host, out, r);
      } else if x :| x in out && s'.props[x] == s.props[r] && s.props[r] != null {
        assert x.uri == r.uri;
        KeptRecords(s, s', pool, own, host, out, x);
      }
    }
  }

  lemma KeptGains(s: Snapshot, s': Snapshot, pool: set<Resource>, own: seq<Resource>, host: seq<Resource>,
                  out: seq<Resource>, r: Resource)
    requires Removed(s, s', pool, own + host, out) && s.Covers(own) && s.Covers(host) && DistinctKeys(own, UriOf)
    requires r in out
    ensures GainsRecords(s, s', host, r)
  {
    KeptRecords(s, s', pool, own, host, out, r);
    if s.props[r] == null {
      TakesHostProps(s, s', pool, own, host, out, r);
      assert KeepsApps(s, s', own + host, r);
    }
  }

  // ----- several merges -----------------------------------------------------

  /** The host's first records stay what they are, up to any place in its list. */
  lemma {:induction false} HostFirstUpTo(s: Snapshot, s': Snapshot, pool: set<Resource>, host: seq<Resource>, i: nat,
                                         uri: string, n: string)
    requires s.Covers(host) && AllGain(s, s', pool, host) && i <= |host| && forall h :: h in host ==> h in pool
    ensures var a, b := FirstIn(s, host[..i], uri, n), FirstIn(s', host[..i], uri, n);
      if a.Some? then b == a else b in {None, FirstIn(s, host, uri, n)}
    decreases i
  {
    if i > 0 {
      var init, h := host[..i - 1], host[i - 1];
      HostFirstUpTo(s, s', pool, host, i - 1, uri, n);
      assert host[..i][..i - 1] == init;
      assert host == host[..i] + host[i..];
      FirstInConcat(s, host[..i], host[i..], uri, n);
      assert h in host && GainsRecords(s, s', host, h);
      AppOfPrefix(Records(s, h), Records(s', h), n);
    }
  }

  lemma HostFirst(s: Snapshot, s': Snapshot, pool: set<Resource>, host: seq<Resource>, uri: string, n: string)
    requires s.Covers(host) && AllGain(s, s', pool, host) && forall h :: h in host ==> h in pool
    ensures FirstIn(s', host, uri, n) == FirstIn(s, host, uri, n)
  {
    HostFirstUpTo(s, s', pool, host, |host|, uri, n);
    assert host[..|host|] == host;
  }

  lemma {:induction false} HostPropsUpTo(s: Snapshot, s': Snapshot, pool: set<Resource>, host: seq<Resource>, i: nat, uri: string)
    requires s.Covers(host) && s'.Covers(host) && AllGain(s, s', pool, host) && i <= |host| && forall h :: h in host ==> h in pool
    ensures s.Covers(host[..i]) && s'.Covers(host[..i])
    ensures var p, q := s.FirstProps(host[..i], uri), s'.FirstProps(host[..i], uri);
      if p != null then q == p else q == null || q == s.FirstProps(host, uri)
    decreases i
  {
    if i > 0 {
      var init, h := host[..i - 1], host[i - 1];
      HostPropsUpTo(s, s', pool, host, i - 1, uri);
      assert host[..i][..i - 1] == init;
      assert host == host[..i] + host[i..];
      FirstPropsConcat(s, host[..i], host[i..], uri);
      assert h in host && GainsRecords(s, s', host, h);
    }
  }

  lemma HostPropsStay(s: Snapshot, s': Snapshot, pool: set<Resource>, host: seq<Resource>, uri: string)
    requires s.Covers(host) && s'.Covers(host) && AllGain(s, s', pool, host) && forall h :: h in host ==> h in pool
    ensures s'.FirstProps(host, uri) == s.FirstProps(host, uri)
  {
    HostPropsUpTo(s, s', pool, host, |host|, uri);
    assert host[..|host|] == host;
  }

  lemma GainOn(s: Snapshot, s': Snapshot, s'': Snapshot, pool: set<Resource>, host: seq<Resource>)
    requires s.Covers(host) && s'.Covers(host) && forall h :: h in host ==> h in pool
    requires AllGain(s, s', pool, host) && AllGain(s', s'', pool, host)
    ensures AllGain(s, s'', pool, host)
  {
    forall r | r in pool ensures GainsRecords(s, s'', host, r) {
      assert GainsRecords(s, s', host, r) && GainsRecords(s', s'', host, r);
      HostPropsStay(s, s', pool, host, r.uri);
      forall n | AppOf(Records(s, r), n).None? ensures AppOf(Records(s'', r), n) in {None, FirstIn(s, host, r.uri, n)} {
        HostFirst(s, s', pool, host, r.uri, n);
        AppOfPrefix(Records(s', r), Records(s'', r), n);
      }
    }
  }

  /** The entries of a merged list keep the first records of the component's own entries and the host's before all merges. */
  ghost predicate RecordsTold(s0: Snapshot, s: Snapshot, own: seq<Resource>, host: seq<Resource>)
    requires s0.Covers(own + host)
  {
    forall r :: r in AppendNew([], own + host, UriOf) ==> RecordsOfBoth(s0, s, own, host, r)
  }

  ghost predicate RecordsOfBoth(s0: Snapshot, s: Snapshot, own: seq<Resource>, host: seq<Resource>, r: Resource)
    requires s0.Covers(own + host)
  {
    var p := s0.FirstProps(own + host, r.uri);
    && (forall n :: AppOf(AppsIn(s, p), n) == FirstIn(s0, own + host, r.uri, n))
    && PropsOfEntry(s, r) == p && AppsIn(s0, p) <= AppsIn(s, p)
  }

  lemma {:induction false} OneRecord(s: Snapshot, own: seq<Resource>, e: Resource, n: string)
    requires DistinctKeys(own, UriOf) && e in own
    ensures FirstIn(s, own, e.uri, n) == AppOf(Records(s, e), n)
  {
    var init, last := own[..|own| - 1], own[|own| - 1];
    assert own == init + [last];
    if last == e {
      forall r | r in init ensures r.uri != e.uri {
        var i :| 0 <= i < |init| && init[i] == r;
        assert UriOf(own[i]) != UriOf(own[|init|]);
      }
      NoneIn(s, init, e.uri, n);
    } else {
      OneRecord(s, init, e, n);
      var i :| 0 <= i < |init| && init[i] == e;
      assert UriOf(own[i]) != UriOf(own[|init|]);
    }
  }

  /** Component and host together have the first records they had, whatever was gained. */
  lemma BothFirst(s: Snapshot, s': Snapshot, pool: set<Resource>, own: seq<Resource>, host: seq<Resource>, uri: string, n: string)
    requires s.Covers(host) && AllGain(s, s', pool, host) && DistinctKeys(own, UriOf)
    requires (forall h :: h in host ==> h in pool) && forall r :: r in own ==> r in pool
    ensures FirstIn(s', own + host, uri, n) == FirstIn(s, own + host, uri, n)
  {
    HostFirst(s, s', pool, host, uri, n);
    FirstInConcat(s, own, host, uri, n);
    FirstInConcat(s', own, host, uri, n);
    if e :| e in own && e.uri == uri {
      OneRecord(s, own, e, n);
      OneRecord(s', own, e, n);
      assert GainsRecords(s, s', host, e);
      AppOfPrefix(Records(s, e), Records(s', e), n);
    } else {
      NoneIn(s, own, uri, n);
      NoneIn(s', own, uri, n);
    }
  }

  /** and the same first properties. */
  lemma BothProps(s: Snapshot, s': Snapshot, pool: set<Resource>, own: seq<Resource>, host: seq<Resource>, uri: string)
    requires Whole(s, pool) && Whole(s', pool) && s.Covers(host) && AllGain(s, s', pool, host) && DistinctKeys(own, UriOf)
    requires (forall h :: h in host ==> h in pool) && forall r :: r in own ==> r in pool
    ensures s.Covers(own + host) && s'.Covers(own + host)
    ensures s'.FirstProps(own + host, uri) == s.FirstProps(own + host, uri)
  {
    HostPropsStay(s, s', pool, host, uri);
    FirstPropsConcat(s, own, host, uri);
    FirstPropsConcat(s', own, host, uri);
    if e :| e in own && e.uri == uri {
      OneEntrySays(s, own, e);
      OneEntrySays(s', own, e);
      assert GainsRecords(s, s', host, e);
    } else {
      NoEntrySays(s, own, uri);
      NoEntrySays(s', own, uri);
    }
  }

  /** The records that properties had stay in front. */
  lemma PropsKeepRecords(s: Snapshot, s': Snapshot, pool: set<Resource>, host: seq<Resource>, res: seq<Resource>, uri: string)
    requires Whole(s, pool) && s.Covers(host) && AllGain(s, s', pool, host) && s.Covers(res) && forall r :: r in res ==> r in pool
    ensures AppsIn(s, s.FirstProps(res, uri)) <= AppsIn(s', s.FirstProps(res, uri))
  {
    s.FirstPropsFound(res, uri);
    if y :| y in res && s.props[y] == s.FirstProps(res, uri) && s.props[y] != null {
      assert GainsRecords(s, s', host, y);
    }
  }

  lemma RecordsToldNow(s0: Snapshot, s: Snapshot, s': Snapshot, pool: set<Resource>, own: seq<Resource>,
                       host: seq<Resource>, out: seq<Resource>)
    requires Whole(s0, pool) && s0.Covers(host) && s0.Covers(own + host) && AllGain(s0, s, pool, host) && DistinctKeys(own, UriOf)
    requires (forall h :: h in host ==> h in pool) && (forall r :: r in own ==> r in pool)
    requires Removed(s, s', pool, own + host, out)
    ensures RecordsTold(s0, s', own, host)
  {
    forall r | r in out ensures RecordsOfBoth(s0, s', own, host, r) {
      RecordsOfKept(s0, s, s', pool, own, host, out, r);
    }
  }

  lemma RecordsOfKept(s0: Snapshot, s: Snapshot, s': Snapshot, pool: set<Resource>, own: seq<Resource>, host: seq<Resource>,
                      out: seq<Resource>, r: Resource)
    requires Whole(s0, pool) && s0.Covers(host) && s0.Covers(own + host) && AllGain(s0, s, pool, host) && DistinctKeys(own, UriOf)
    requires (forall h :: h in host ==> h in pool) && (forall r :: r in own ==> r in pool)
    requires Removed(s, s', pool, own + host, out) && r in out
    ensures RecordsOfBoth(s0, s', own, host, r)
  {
    RemovedEntry(s, s', pool, own + host, out, r);
    RecordsAfterMerge(s0, s, s', pool, own, host, r);
  }

  /** What a merge says about one entry of the list it leaves. */
  lemma RemovedEntry(s: Snapshot, s': Snapshot, pool: set<Resource>, res: seq<Resource>, out: seq<Resource>, r: Resource)
    requires Removed(s, s', pool, res, out) && r in out
    ensures Whole(s, pool) && s.Covers(res)
    ensures KeepsApps(s, s', res, r) && PropsOfEntry(s', r) == s.FirstProps(res, r.uri)
  {
  }

  lemma RecordsAfterMerge(s0: Snapshot, s: Snapshot, s': Snapshot, pool: set<Resource>, own: seq<Resource>, host: seq<Resource>,
                          r: Resource)
    requires Whole(s0, pool) && s0.Covers(host) && s0.Covers(own + host) && AllGain(s0, s, pool, host) && DistinctKeys(own, UriOf)
    requires (forall h :: h in host ==> h in pool) && (forall r :: r in own ==> r in pool)
    requires Whole(s, pool) && s.Covers(own + host)
    requires KeepsApps(s, s', own + host, r) && PropsOfEntry(s', r) == s.FirstProps(own + host, r.uri)
    ensures RecordsOfBoth(s0, s', own, host, r)
  {
    BothProps(s0, s, pool, own, host, r.uri);
    PropsKeepRecords(s0, s, pool, host, own + host, r.uri);
    forall n ensures AppOf(AppsIn(s', PropsOfEntry(s', r)), n) == FirstIn(s0, own + host, r.uri, n) {
      BothFirst(s0, s, pool, own, host, r.uri, n);
    }
  }

  lemma RecordsToldStays(s0: Snapshot, s: Snapshot, s': Snapshot, pool: set<Resource>, own: seq<Resource>, host: seq<Resource>)
    requires Whole(s0, pool) && Whole(s, pool) && s0.Covers(host) && s.Covers(host) && s0.Covers(own + host)
    requires AllGain(s0, s, pool, host) && AllGain(s, s', pool, host) && RecordsTold(s0, s, own, host)
    requires (forall h :: h in host ==> h in pool) && (forall r :: r in own ==> r in pool)
    ensures RecordsTold(s0, s', own, host)
  {
    var none: seq<Resource> := [];
    AppendNewKeys(none, own + host, UriOf);
    forall r | r in AppendNew([], own + host, UriOf) ensures RecordsOfBoth(s0, s', own, host, r) {
      assert r in own + host && GainsRecords(s, s', host, r) && RecordsOfBoth(s0, s, own, host, r);
      RecordsStay(s0, s, s', pool, own, host, r);
    }
  }

  lemma RecordsStay(s0: Snapshot, s: Snapshot, s': Snapshot, pool: set<Resource>, own: seq<Resource>, host: seq<Resource>,
                    r: Resource)
    requires Whole(s0, pool) && Whole(s, pool) && s0.Covers(host) && s.Covers(host) && s0.Covers(own) && s0.Covers(own + host)
    requires AllGain(s0, s, pool, host) && GainsRecords(s, s', host, r) && RecordsOfBoth(s0, s, own, host, r)
    requires forall h :: h in host ==> h in pool
    ensures RecordsOfBoth(s0, s', own, host, r)
  {
    HostPropsStay(s0, s, pool, host, r.uri);
    FirstPropsConcat(s0, own, host, r.uri);
    forall n ensures AppOf(Records(s', r), n) == FirstIn(s0, own + host, r.uri, n) {
      AppOfPrefix(Records(s, r), Records(s', r), n);
      HostFirst(s0, s, pool, host, r.uri, n);
      FirstInConcat(s0, own, host, r.uri, n);
    }
  }

  /** The records after the host was merged into the lists of some components, in terms of the state before all merges. */
  ghost predicate RecordsSound<C>(s0: Snapshot, s: Snapshot, was: map<C, seq<Resource>>, host: seq<Resource>,
                                  pool: set<Resource>, done: set<C>)
    requires Lists(s0, was, host, pool)
  {
    && Whole(s, pool) && AllGain(s0, s, pool, host)
    && forall c :: c in was && c in done ==> s0.Covers(was[c] + host) && RecordsTold(s0, s, was[c], host)
  }

  lemma RecordsAtFirst<C>(s: Snapshot, was: map<C, seq<Resource>>, host: seq<Resource>, pool: set<Resource>)
    requires Lists(s, was, host, pool)
    ensures RecordsSound(s, s, was, host, pool, {})
  {
  }

  /** One more merge, into a list that may have been merged before. */
  lemma RecordsStep<C>(s0: Snapshot, s: Snapshot, s': Snapshot, was: map<C, seq<Resource>>, host: seq<Resource>,
                       pool: set<Resource>, done: set<C>, c: C, out: seq<Resource>)
    requires Lists(s0, was, host, pool) && RecordsSound(s0, s, was, host, pool, done)
    requires c in was && Removed(s, s', pool, was[c] + host, out)
    ensures RecordsSound(s0, s', was, host, pool, done + {c})
  {
    OneMergeGains(s, s', pool, was[c], host, out);
    GainOn(s0, s, s', pool, host);
    forall d | d in was && d in done + {c} ensures s0.Covers(was[d] + host) && RecordsTold(s0, s', was[d], host) {
      if d == c {
        RecordsToldNow(s0, s, s', pool, was[c], host, out);
      } else {
        RecordsToldStays(s0, s, s', pool, was[d], host);
      }
    }
  }

  /**
   * Once the host was merged into a list, every entry of it keeps, for every name, the
   * first application record of that list and the host's list before all merges.
   */
  lemma RecordsMean<C>(s0: Snapshot, was: map<C, seq<Resource>>, host: seq<Resource>, pool: set<Resource>, done: set<C>, c: C)
    requires Lists(s0, was, host, pool) && RecordsSound(s0, Take(pool), was, host, pool, done)
    requires c in was && c in done && s0.Covers(was[c] + host)
    ensures AllKeepRecords(Views(AppendNew([], was[c] + host, UriOf)), s0.Views(was[c] + host))
  {
    var res, out := was[c] + host, AppendNew([], was[c] + host, UriOf);
    var none: seq<Resource> := [];
    AppendNewKeys(none, res, UriOf);
    forall k | 0 <= k < |out| ensures KeepsRecords(Views(out)[k], s0.Views(res)) {
      assert out[k] in res;
      RecordsOfEntry(s0, pool, was[c], host, out[k]);
    }
  }

  lemma RecordsOfEntry(s0: Snapshot, pool: set<Resource>, own: seq<Resource>, host: seq<Resource>, r: Resource)
    requires s0.Covers(own + host) && r in pool && RecordsOfBoth(s0, Take(pool), own, host, r)
    ensures KeepsRecords(View(r), s0.Views(own + host))
  {
    var vs := s0.Views(own + host);
    forall n ensures AppOf(Apps(View(r)), n) == FirstApp(vs, r.uri, n) {
      FirstInViews(s0, own + host, r.uri, n);
    }
    forall i | FirstWithProps(vs, r.uri, i) ensures r.props != null && Apps(vs[i]) <= Apps(View(r)) {
      FirstPropsOf(s0, own + host, r.uri, i);
    }
  }
}

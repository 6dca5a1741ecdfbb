/**
 * The component tree is a contraction of the replica tree: every site lands in
 * exactly one component, hoisted components keep their source site, and no URI
 * is lost or invented.
 */
module TopologyContraction {
  import opened Common
  import opened Resources
  import opened MergeLaws
  import opened Topology

  /** The heads among a list of paths, in order. */
  ghost function Heads(env: Env, s: Replica, ps: seq<Path>): seq<Path> {
    if ps == [] then []
    else
      var p := ps[|ps| - 1];
      Heads(env, s, ps[..|ps| - 1]) + if env.IsHead(s, p) then [p] else []
  }

  /**
   * Component by component, the source site is that of the given heads, and the list is
   * what removing duplicates leaves of the entries of the sites that land there.
   */
  ghost predicate Places(env: Env, s: Replica, ps: seq<Path>, comps: seq<SiteValue>, hs: seq<Path>) {
    |comps| == |hs| && forall k :: 0 <= k < |hs| ==> PlaceAt(env, s, ps, comps[k], hs[k])
  }

  ghost predicate PlaceAt(env: Env, s: Replica, ps: seq<Path>, comp: SiteValue, h: Path) {
    && ValidPath(s, h)
    && comp.source == env.SourceName(s, h)
    && comp.component.resources == Dedup(env.MemberEntries(s, ps, h))
  }

  // ----- paths --------------------------------------------------------------

  ghost predicate StartsBelow(p: Path, n: nat) {
    p == [] || p[0] < n
  }

  lemma {:induction false} PathsRoot(s: Replica, n: nat)
    requires n <= |s.targets|
    ensures |PathsUpTo(s, n)| > 0 && PathsUpTo(s, n)[0] == []
    ensures forall k :: 1 <= k < |PathsUpTo(s, n)| ==> PathsUpTo(s, n)[k] != []
    ensures forall p :: p in PathsUpTo(s, n) ==> StartsBelow(p, n)
    decreases n
  {
    if n > 0 {
      PathsRoot(s, n - 1);
    }
  }

  /** `Paths` lists exactly the sites of the tree. */
  lemma {:induction false} PathsAreSites(s: Replica, n: nat, p: Path)
    requires n <= |s.targets|
    ensures p in PathsUpTo(s, n) <==> ValidPath(s, p) && StartsBelow(p, n)
    decreases s, n
  {
    if n > 0 {
      var c := s.targets[n - 1];
      PathsAreSites(s, n - 1, p);
      if p != [] && p[0] == n - 1 {
        var q := p[1..];
        assert p == [n - 1] + q;
        PathsAreSites(c, |c.targets|, q);
        if q != [] && ValidPath(c, q) {
          assert q[0] < |c.targets|;
        }
        if q in Paths(c) {
          var k :| 0 <= k < |Paths(c)| && Paths(c)[k] == q;
          assert Below(n - 1, Paths(c))[k] == p;
        }
        if p in Below(n - 1, Paths(c)) {
          var k :| 0 <= k < |Paths(c)| && Below(n - 1, Paths(c))[k] == p;
          assert p[1..] == Paths(c)[k];
        }
      }
    }
  }

  /** `Paths` lists no site twice. */
  lemma {:induction false} PathsDistinct(s: Replica, n: nat)
    requires n <= |s.targets|
    ensures DistinctKeys(PathsUpTo(s, n), Same<Path>)
    decreases s, n
  {
    if n > 0 {
      var c := s.targets[n - 1];
      var ps, qs := PathsUpTo(s, n - 1), Below(n - 1, Paths(c));
      PathsDistinct(s, n - 1);
      PathsDistinct(c, |c.targets|);
      PathsRoot(s, n - 1);
      forall j, k | 0 <= j < k < |ps + qs|
        ensures Same((ps + qs)[j]) != Same((ps + qs)[k])
      {
        if k < |ps| {
          assert Same(ps[j]) != Same(ps[k]);
        } else if j >= |ps| {
          assert Same(Paths(c)[j - |ps|]) != Same(Paths(c)[k - |ps|]);
          assert qs[j - |ps|][1..] == Paths(c)[j - |ps|] && qs[k - |ps|][1..] == Paths(c)[k - |ps|];
        } else {
          assert StartsBelow(ps[j], n - 1) && qs[k - |ps|][0] == n - 1;
        }
      }
    }
  }

  // ----- heads --------------------------------------------------------------

  lemma {:induction false} HeadPrefix(env: Env, s: Replica, p: Path)
    requires ValidPath(s, p)
    ensures env.Head(s, p) <= p && env.IsHead(s, env.Head(s, p))
    decreases |p|
  {
    if env.Contracted(s, p) {
      ParentValid(s, p);
      HeadPrefix(env, s, Parent(p));
    }
  }

  lemma {:induction false} HeadsConcat(env: Env, s: Replica, ps: seq<Path>, qs: seq<Path>)
    ensures Heads(env, s, ps + qs) == Heads(env, s, ps) + Heads(env, s, qs)
  {
    if qs == [] {
      assert ps + qs == ps;
    } else {
      assert (ps + qs)[..|ps + qs| - 1] == ps + qs[..|qs| - 1];
      HeadsConcat(env, s, ps, qs[..|qs| - 1]);
    }
  }

  lemma HeadsSingle(env: Env, s: Replica, p: Path)
    ensures Heads(env, s, [p]) == if env.IsHead(s, p) then [p] else []
  {
    assert [p][..0] == [];
  }

  lemma {:induction false} HeadsFiltered(env: Env, s: Replica, ps: seq<Path>)
    ensures forall h :: h in Heads(env, s, ps) <==> h in ps && env.IsHead(s, h)
  {
    if ps != [] {
      HeadsFiltered(env, s, ps[..|ps| - 1]);
      assert ps == ps[..|ps| - 1] + [ps[|ps| - 1]];
    }
  }

  lemma HeadsSnoc(env: Env, s: Replica, ps: seq<Path>, p: Path)
    ensures Heads(env, s, ps + [p]) == Heads(env, s, ps) + if env.IsHead(s, p) then [p] else []
  {
    assert (ps + [p])[..|ps|] == ps;
  }

  lemma BelowSnoc(i: nat, ps: seq<Path>, p: Path)
    ensures Below(i, ps + [p]) == Below(i, ps) + [[i] + p]
  {
  }

  /** Heads strictly below a target are heads of the subtree, shifted. */
  lemma {:induction false} HeadsBelow(env: Env, s: Replica, i: nat, qs: seq<Path>)
    requires i < |s.targets|
    requires forall q :: q in qs ==> q != [] && ValidPath(s.targets[i], q)
    ensures Heads(env, s, Below(i, qs)) == Below(i, Heads(env, s.targets[i], qs))
  {
    if qs == [] {
      assert Below(i, qs) == [];
    } else {
      var init, q := qs[..|qs| - 1], qs[|qs| - 1];
      assert qs == init + [q] && q in qs && forall x :: x in init ==> x in qs;
      HeadsBelow(env, s, i, init);
      HeadsBelowNext(env, s, i, init, q);
    }
  }

  lemma HeadsBelowNext(env: Env, s: Replica, i: nat, init: seq<Path>, q: Path)
    requires i < |s.targets| && q != [] && ValidPath(s.targets[i], q)
    requires Heads(env, s, Below(i, init)) == Below(i, Heads(env, s.targets[i], init))
    ensures Heads(env, s, Below(i, init + [q])) == Below(i, Heads(env, s.targets[i], init + [q]))
  {
    var hs := Heads(env, s.targets[i], init);
    env.HeadShift(s, i, q);
    HeadsSnoc(env, s.targets[i], init, q);
    HeadsSnoc(env, s, Below(i, init), [i] + q);
    BelowSnoc(i, init, q);
    BelowSnoc(i, hs, q);
  }

  // ----- the entries of the members -----------------------------------------

  lemma MembersSnoc(env: Env, s: Replica, ps: seq<Path>, p: Path, h: Path)
    ensures env.MemberEntries(s, ps + [p], h) == env.MemberEntries(s, ps, h) + env.EntriesOf(s, p, h)
  {
    assert (ps + [p])[..|ps|] == ps;
  }

  lemma {:induction false} MembersConcat(env: Env, s: Replica, ps: seq<Path>, qs: seq<Path>, h: Path)
    ensures env.MemberEntries(s, ps + qs, h) == env.MemberEntries(s, ps, h) + env.MemberEntries(s, qs, h)
  {
    if qs == [] {
      assert ps + qs == ps;
    } else {
      var init, q := qs[..|qs| - 1], qs[|qs| - 1];
      assert qs == init + [q] && ps + qs == ps + init + [q];
      MembersConcat(env, s, ps, init, h);
      MembersSnoc(env, s, ps + init, q, h);
      Regroup(env.MemberEntries(s, ps, h), env.MemberEntries(s, init, h), env.EntriesOf(s, q, h));
    }
  }

  lemma OneMember(env: Env, s: Replica, p: Path, h: Path)
    ensures env.MemberEntries(s, [p], h) == env.EntriesOf(s, p, h)
  {
    assert [p][..0] == [];
  }

  /** Sites of the first subtrees never land in a component further right. */
  lemma {:induction false} MembersOutside(env: Env, s: Replica, ps: seq<Path>, n: nat, h: Path)
    requires forall p :: p in ps ==> StartsBelow(p, n)
    requires !StartsBelow(h, n)
    ensures env.MemberEntries(s, ps, h) == []
  {
    if ps != [] {
      var init, p := ps[..|ps| - 1], ps[|ps| - 1];
      assert p in ps && forall q :: q in init ==> q in ps;
      MembersOutside(env, s, init, n, h);
      if ValidPath(s, p) {
        HeadPrefix(env, s, p);
      }
    }
  }

  /** Whether sites of the subtree of a target may land in the component of `h`. */
  ghost predicate Shown(env: Env, s: Replica, i: nat, h: Path)
    requires i < |s.targets|
  {
    if h == [] then env.Joins(s, i) else h[0] == i && (h == [i] ==> !env.Joins(s, i))
  }

  /** A path seen from the site below. */
  ghost function Shorter(h: Path): Path {
    if h == [] then [] else h[1..]
  }

  lemma LandsBelow(env: Env, s: Replica, i: nat, q: Path, h: Path)
    requires i < |s.targets| && ValidPath(s.targets[i], q)
    ensures ValidPath(s, [i] + q) && At(s, [i] + q) == At(s.targets[i], q)
    ensures env.Head(s, [i] + q) == h <==> Shown(env, s, i, h) && env.Head(s.targets[i], q) == Shorter(h)
  {
    env.HeadShift(s, i, q);
    HeadEqual(i, env.Head(s.targets[i], q), h);
  }

  /** Sites below a target land where the subtree says, one level up. */
  lemma {:induction false} MembersBelow(env: Env, s: Replica, i: nat, qs: seq<Path>, h: Path)
    requires i < |s.targets|
    requires forall q :: q in qs ==> ValidPath(s.targets[i], q)
    ensures env.MemberEntries(s, Below(i, qs), h)
         == if Shown(env, s, i, h) then env.MemberEntries(s.targets[i], qs, Shorter(h)) else []
  {
    if qs == [] {
      assert Below(i, qs) == [];
    } else {
      var init, q := qs[..|qs| - 1], qs[|qs| - 1];
      assert qs == init + [q] && q in qs && forall x :: x in init ==> x in qs;
      MembersBelow(env, s, i, init, h);
      BelowSnoc(i, init, q);
      MembersConcat(env, s, Below(i, init), [[i] + q], h);
      OneMember(env, s, [i] + q, h);
      LandsBelow(env, s, i, q, h);
    }
  }

  lemma HeadEqual(i: nat, h: Path, g: Path)
    ensures [i] + h == g <==> g != [] && g[0] == i && g[1..] == h
  {
    if g != [] && g[0] == i && g[1..] == h {
      assert g == [i] + g[1..];
    }
    assert ([i] + h)[1..] == h;
  }

  // ----- the contraction ----------------------------------------------------

  lemma PlacesConcat(env: Env, s: Replica, ps: seq<Path>, a: seq<SiteValue>, b: seq<SiteValue>, ha: seq<Path>, hb: seq<Path>)
    requires Places(env, s, ps, a, ha) && Places(env, s, ps, b, hb)
    ensures Places(env, s, ps, a + b, ha + hb)
  {
    forall k | 0 <= k < |ha + hb|
      ensures ValidPath(s, (ha + hb)[k])
      ensures (a + b)[k].source == env.SourceName(s, (ha + hb)[k])
      ensures (a + b)[k].component.resources == Dedup(env.MemberEntries(s, ps, (ha + hb)[k]))
    {
      if k < |ha| {
        assert (a + b)[k] == a[k] && (ha + hb)[k] == ha[k];
      } else {
        assert (a + b)[k] == b[k - |a|] && (ha + hb)[k] == hb[k - |ha|];
      }
    }
  }

  /** Components already placed stay as they are when sites to their right are added. */
  lemma PlacesLeft(env: Env, s: Replica, i: nat, ps: seq<Path>, qs: seq<Path>, comps: seq<SiteValue>, hs: seq<Path>)
    requires i < |s.targets| && Places(env, s, ps, comps, hs)
    requires forall q :: q in qs ==> ValidPath(s.targets[i], q)
    requires forall h :: h in hs ==> h != [] && StartsBelow(h, i)
    ensures Places(env, s, ps + Below(i, qs), comps, hs)
  {
    forall k | 0 <= k < |hs|
      ensures env.MemberEntries(s, ps + Below(i, qs), hs[k]) == env.MemberEntries(s, ps, hs[k])
    {
      assert hs[k] in hs;
      MembersConcat(env, s, ps, Below(i, qs), hs[k]);
      MembersBelow(env, s, i, qs, hs[k]);
    }
  }

  lemma Shifted(s: Replica, i: nat, q: Path)
    requires i < |s.targets| && ValidPath(s.targets[i], q)
    ensures ValidPath(s, [i] + q) && At(s, [i] + q) == At(s.targets[i], q)
  {
    assert ([i] + q)[1..] == q;
  }

  lemma SourceBelow(env: Env, s: Replica, i: nat, h: Path)
    requires i < |s.targets| && ValidPath(s.targets[i], h) && h != []
    ensures ValidPath(s, [i] + h) && env.SourceName(s, [i] + h) == env.SourceName(s.targets[i], h)
  {
    ParentValid(s.targets[i], h);
    Shifted(s, i, h);
    Shifted(s, i, Parent(h));
    assert Parent([i] + h) == [i] + Parent(h);
  }

  lemma MembersRight(env: Env, s: Replica, i: nat, ps: seq<Path>, qs: seq<Path>, h: Path)
    requires i < |s.targets| && h != []
    requires forall p :: p in ps ==> StartsBelow(p, i)
    requires forall q :: q in qs ==> ValidPath(s.targets[i], q)
    ensures env.MemberEntries(s, ps + Below(i, qs), [i] + h) == env.MemberEntries(s.targets[i], qs, h)
  {
    assert ([i] + h)[1..] == h;
    MembersConcat(env, s, ps, Below(i, qs), [i] + h);
    MembersOutside(env, s, ps, i, [i] + h);
    MembersBelow(env, s, i, qs, [i] + h);
  }

  /** Components hoisted out of a target's subtree keep what they say and their source site. */
  lemma PlacesRight(env: Env, s: Replica, i: nat, ps: seq<Path>, qs: seq<Path>, comps: seq<SiteValue>, hs: seq<Path>)
    requires i < |s.targets| && Places(env, s.targets[i], qs, comps, hs)
    requires forall p :: p in ps ==> StartsBelow(p, i)
    requires forall q :: q in qs ==> ValidPath(s.targets[i], q)
    requires forall h :: h in hs ==> h != []
    ensures Places(env, s, ps + Below(i, qs), comps, Below(i, hs))
  {
    forall k | 0 <= k < |hs|
      ensures ValidPath(s, [i] + hs[k])
      ensures comps[k].source == env.SourceName(s, [i] + hs[k])
      ensures comps[k].component.resources == Dedup(env.MemberEntries(s, ps + Below(i, qs), [i] + hs[k]))
    {
      assert hs[k] in hs;
      SourceBelow(env, s, i, hs[k]);
      MembersRight(env, s, i, ps, qs, hs[k]);
    }
  }

  /** What `Contraction` states, for the first `n` targets of a site. */
  ghost predicate Contracts(env: Env, s: Replica, n: nat)
    requires n <= |s.targets|
  {
    Places(env, s, PathsUpTo(s, n), Flat(SiteValue(env.BuildUpTo(s, n), "")), Heads(env, s, PathsUpTo(s, n)))
  }

  lemma {:induction false} RootHead(env: Env, s: Replica, n: nat)
    requires n <= |s.targets|
    ensures var ps := PathsUpTo(s, n);
      && |ps| > 0 && ps[0] == []
      && Heads(env, s, ps) == [[]] + Heads(env, s, ps[1..])
      && (forall p :: p in ps[1..] ==> p != [] && StartsBelow(p, n))
      && (n == |s.targets| ==> forall p :: p in ps ==> ValidPath(s, p))
  {
    var ps := PathsUpTo(s, n);
    PathsRoot(s, n);
    assert ps == [[]] + ps[1..];
    HeadsConcat(env, s, [[]], ps[1..]);
    HeadsSingle(env, s, []);
    forall p | p in ps ensures n == |s.targets| ==> ValidPath(s, p) {
      PathsAreSites(s, n, p);
    }
  }

  ghost function RestHeads(env: Env, s: Replica, n: nat): seq<Path>
    requires n <= |s.targets|
  {
    PathsRoot(s, n);
    Heads(env, s, PathsUpTo(s, n)[1..])
  }

  /** The parts of the next tree: the heads, and the components below the root, whichever way the target goes. */
  lemma StepParts(env: Env, s: Replica, n: nat)
    requires n < |s.targets| && Contracts(env, s, n) && Contracts(env, s.targets[n], |s.targets[n].targets|)
    ensures var c := s.targets[n];
      var a, b := env.BuildUpTo(s, n), env.Build(c);
      var ps, qs, ps' := PathsUpTo(s, n), Paths(c), PathsUpTo(s, n + 1);
      var ha, hb := RestHeads(env, s, n), RestHeads(env, c, |c.targets|);
      && Places(env, s, ps', FlatAll(a.sites), ha)
      && Places(env, s, ps', FlatAll(b.sites), Below(n, hb))
      && a.resources == Dedup(env.MemberEntries(s, ps, []))
      && b.resources == Dedup(env.MemberEntries(c, qs, []))
      && Heads(env, s, ps') == [[]] + (ha + (AddedHeads(env, s, n) + Below(n, hb)))
  {
    var c := s.targets[n];
    var a, b := env.BuildUpTo(s, n), env.Build(c);
    var ps, qs := PathsUpTo(s, n), Paths(c);
    RootHead(env, s, n);
    RootHead(env, c, |c.targets|);
    var ha, hb := RestHeads(env, s, n), RestHeads(env, c, |c.targets|);
    SplitPlaces(env, s, ps, SiteValue(a, ""), ha);
    SplitPlaces(env, c, qs, SiteValue(b, ""), hb);
    HeadsFiltered(env, s, ps[1..]);
    HeadsFiltered(env, c, qs[1..]);
    PlacesLeft(env, s, n, ps, qs, FlatAll(a.sites), ha);
    PlacesRight(env, s, n, ps, qs, FlatAll(b.sites), hb);
    StepHeads(env, s, n);
  }

  lemma SubtreeHeads(env: Env, s: Replica, n: nat)
    requires n < |s.targets|
    ensures var c := s.targets[n];
      Heads(env, s, Below(n, Paths(c))) == AddedHeads(env, s, n) + Below(n, RestHeads(env, c, |c.targets|))
  {
    var c := s.targets[n];
    var qs := Paths(c);
    RootHead(env, c, |c.targets|);
    assert [n] + [] == [n];
    assert Below(n, qs) == [[n]] + Below(n, qs[1..]);
    HeadsConcat(env, s, [[n]], Below(n, qs[1..]));
    HeadsBelow(env, s, n, qs[1..]);
    HeadsSingle(env, s, [n]);
    env.HeadShift(s, n, []);
  }

  lemma NextPaths(env: Env, s: Replica, n: nat)
    requires n < |s.targets|
    ensures Heads(env, s, PathsUpTo(s, n + 1)) == Heads(env, s, PathsUpTo(s, n)) + Heads(env, s, Below(n, Paths(s.targets[n])))
  {
    HeadsConcat(env, s, PathsUpTo(s, n), Below(n, Paths(s.targets[n])));
  }

  lemma StepHeads(env: Env, s: Replica, n: nat)
    requires n < |s.targets|
    ensures var c := s.targets[n];
      Heads(env, s, PathsUpTo(s, n + 1))
      == [[]] + (RestHeads(env, s, n)
                 + (AddedHeads(env, s, n) + Below(n, RestHeads(env, c, |c.targets|))))
  {
    var c := s.targets[n];
    RootRest(env, s, n);
    NextPaths(env, s, n);
    SubtreeHeads(env, s, n);
    Regroup([[]], RestHeads(env, s, n), AddedHeads(env, s, n) + Below(n, RestHeads(env, c, |c.targets|)));
  }

  lemma RootRest(env: Env, s: Replica, n: nat)
    requires n <= |s.targets|
    ensures Heads(env, s, PathsUpTo(s, n)) == [[]] + RestHeads(env, s, n)
  {
    RootHead(env, s, n);
  }

  /** The sites that land in the root once one more target was looked at. */
  lemma RootEntries(env: Env, s: Replica, n: nat)
    requires n < |s.targets|
    ensures env.MemberEntries(s, PathsUpTo(s, n + 1), [])
         == env.MemberEntries(s, PathsUpTo(s, n), [])
            + if env.Joins(s, n) then env.MemberEntries(s.targets[n], Paths(s.targets[n]), []) else []
  {
    var qs := Paths(s.targets[n]);
    RootHead(env, s.targets[n], |s.targets[n].targets|);
    MembersConcat(env, s, PathsUpTo(s, n), Below(n, qs), []);
    MembersBelow(env, s, n, qs, []);
  }

  /** The list of the root component of the next tree. */
  lemma StepRoot(env: Env, s: Replica, n: nat)
    requires n < |s.targets|
    requires var c := s.targets[n];
      && env.BuildUpTo(s, n).resources == Dedup(env.MemberEntries(s, PathsUpTo(s, n), []))
      && env.Build(c).resources == Dedup(env.MemberEntries(c, Paths(c), []))
    ensures Places(env, s, PathsUpTo(s, n + 1), [SiteValue(env.BuildUpTo(s, n + 1), "")], [[]])
  {
    RootEntries(env, s, n);
    RootList(env, s, n, env.MemberEntries(s, PathsUpTo(s, n), []), env.MemberEntries(s.targets[n], Paths(s.targets[n]), []));
  }

  lemma RootList(env: Env, s: Replica, n: nat, a: seq<ResourceValue>, b: seq<ResourceValue>)
    requires n < |s.targets| && env.BuildUpTo(s, n).resources == Dedup(a) && env.Build(s.targets[n]).resources == Dedup(b)
    ensures env.BuildUpTo(s, n + 1).resources == Dedup(a + if env.Joins(s, n) then b else [])
  {
    if env.Joins(s, n) {
      DedupBoth(a, b);
    } else {
      assert a + [] == a;
    }
  }

  lemma ApartEntries(env: Env, s: Replica, n: nat)
    requires n < |s.targets| && !env.Joins(s, n)
    ensures env.MemberEntries(s, PathsUpTo(s, n + 1), [n]) == env.MemberEntries(s.targets[n], Paths(s.targets[n]), [])
  {
    MembersConcat(env, s, PathsUpTo(s, n), Below(n, Paths(s.targets[n])), [n]);
    NoneBefore(env, s, n);
    AllAreValid(env, s.targets[n]);
    EntriesBelow(env, s, n, Paths(s.targets[n]));
  }

  lemma NoneBefore(env: Env, s: Replica, n: nat)
    requires n < |s.targets|
    ensures env.MemberEntries(s, PathsUpTo(s, n), [n]) == []
  {
    PathsRoot(s, n);
    MembersOutside(env, s, PathsUpTo(s, n), n, [n]);
  }

  lemma AllAreValid(env: Env, s: Replica)
    ensures forall p :: p in Paths(s) ==> ValidPath(s, p)
  {
    RootHead(env, s, |s.targets|);
  }

  lemma EntriesBelow(env: Env, s: Replica, n: nat, qs: seq<Path>)
    requires n < |s.targets| && !env.Joins(s, n) && forall q :: q in qs ==> ValidPath(s.targets[n], q)
    ensures env.MemberEntries(s, Below(n, qs), [n]) == env.MemberEntries(s.targets[n], qs, [])
  {
    MembersBelow(env, s, n, qs, [n]);
  }

  /** A target that is not absorbed becomes a component of its own, with this site as its source. */
  lemma StepApart(env: Env, s: Replica, n: nat)
    requires n < |s.targets| && !env.Joins(s, n)
    requires var c := s.targets[n]; env.Build(c).resources == Dedup(env.MemberEntries(c, Paths(c), []))
    ensures Places(env, s, PathsUpTo(s, n + 1), [SiteValue(env.Build(s.targets[n]), s.name)], [[n]])
  {
    ApartEntries(env, s, n);
    env.HeadShift(s, n, []);
    assert [n] + [] == [n] && Parent([n]) == [];
  }

  /** The components a target adds in front of those below it: none when it is absorbed. */
  ghost function Added(env: Env, s: Replica, n: nat): seq<SiteValue>
    requires n < |s.targets|
  {
    if env.Joins(s, n) then [] else [SiteValue(env.Build(s.targets[n]), s.name)]
  }

  ghost function AddedHeads(env: Env, s: Replica, n: nat): seq<Path>
    requires n < |s.targets|
  {
    if env.Joins(s, n) then [] else [[n]]
  }

  /** The components below the root of the next tree. */
  lemma NextFlat(env: Env, s: Replica, n: nat)
    requires n < |s.targets|
    ensures FlatAll(env.BuildUpTo(s, n + 1).sites)
         == FlatAll(env.BuildUpTo(s, n).sites) + (Added(env, s, n) + FlatAll(env.Build(s.targets[n]).sites))
  {
    var a, b := env.BuildUpTo(s, n), env.Build(s.targets[n]);
    if env.Joins(s, n) {
      FlatAllConcat(a.sites, b.sites);
    } else {
      var site := SiteValue(b, s.name);
      FlatAllConcat(a.sites, [site]);
      assert FlatAll([site]) == Flat(site) by {
        assert [site][..0] == [];
      }
    }
  }

  lemma AddedPlaces(env: Env, s: Replica, n: nat)
    requires n < |s.targets|
    requires var c := s.targets[n]; env.Build(c).resources == Dedup(env.MemberEntries(c, Paths(c), []))
    ensures Places(env, s, PathsUpTo(s, n + 1), Added(env, s, n), AddedHeads(env, s, n))
  {
    if !env.Joins(s, n) {
      StepApart(env, s, n);
    }
  }

  lemma ContractsStep(env: Env, s: Replica, n: nat, c: Replica, next: nat)
    requires n < |s.targets| && c == s.targets[n] && next == n + 1
    requires Contracts(env, s, n) && Contracts(env, c, |c.targets|)
    ensures Contracts(env, s, next)
  {
    StepParts(env, s, n);
    StepRoot(env, s, n);
    AddedPlaces(env, s, n);
    NextFlat(env, s, n);
    Assemble(env, s, PathsUpTo(s, n + 1), SiteValue(env.BuildUpTo(s, n + 1), ""),
             FlatAll(env.BuildUpTo(s, n).sites), Added(env, s, n), FlatAll(env.Build(s.targets[n]).sites),
             RestHeads(env, s, n), AddedHeads(env, s, n), Below(n, RestHeads(env, s.targets[n], |s.targets[n].targets|)));
  }

  lemma Assemble(env: Env, s: Replica, ps: seq<Path>, root: SiteValue,
                 x: seq<SiteValue>, y: seq<SiteValue>, z: seq<SiteValue>, hx: seq<Path>, hy: seq<Path>, hz: seq<Path>)
    requires Places(env, s, ps, [root], [[]])
    requires Places(env, s, ps, x, hx) && Places(env, s, ps, y, hy) && Places(env, s, ps, z, hz)
    requires FlatAll(root.component.sites) == x + (y + z)
    ensures Places(env, s, ps, Flat(root), [[]] + (hx + (hy + hz)))
  {
    PlacesConcat(env, s, ps, y, z, hy, hz);
    PlacesConcat(env, s, ps, x, y + z, hx, hy + hz);
    PlacesConcat(env, s, ps, [root], x + (y + z), [[]], hx + (hy + hz));
  }

  lemma SplitPlaces(env: Env, s: Replica, ps: seq<Path>, site: SiteValue, hs: seq<Path>)
    requires Places(env, s, ps, Flat(site), [[]] + hs)
    ensures Places(env, s, ps, FlatAll(site.component.sites), hs)
    ensures site.component.resources == Dedup(env.MemberEntries(s, ps, []))
  {
    TailPlaces(env, s, ps, site, FlatAll(site.component.sites), [], hs);
  }

  lemma TailPlaces(env: Env, s: Replica, ps: seq<Path>, first: SiteValue, rest: seq<SiteValue>, h: Path, hs: seq<Path>)
    requires Places(env, s, ps, [first] + rest, [h] + hs)
    ensures Places(env, s, ps, rest, hs) && PlaceAt(env, s, ps, first, h)
  {
    var comps, heads := [first] + rest, [h] + hs;
    assert PlaceAt(env, s, ps, comps[0], heads[0]);
    forall k | 0 <= k < |hs| ensures PlaceAt(env, s, ps, rest[k], hs[k]) {
      assert PlaceAt(env, s, ps, comps[k + 1], heads[k + 1]);
    }
  }

  /** Before its targets are looked at, only the site itself lands in its component. */
  lemma RootMembers(env: Env, s: Replica)
    ensures Dedup(env.MemberEntries(s, [[]], [])) == env.Own(s.name).resources
  {
    OneMember(env, s, [], []);
    OwnProper(env, s.name);
    DedupDistinct(env.Own(s.name).resources);
  }

  lemma LeafFlat(site: SiteValue)
    requires site.component.sites == []
    ensures Flat(site) == [site]
  {
  }

  lemma ContractsBase(env: Env, s: Replica)
    ensures Contracts(env, s, 0)
  {
    var site := SiteValue(env.Own(s.name), "");
    RootMembers(env, s);
    LeafFlat(site);
    HeadsSingle(env, s, []);
    assert Places(env, s, [[]], [site], [[]]);
  }

  lemma {:induction false} ContractsUpTo(env: Env, s: Replica, n: nat)
    requires n <= |s.targets|
    ensures Contracts(env, s, n)
    decreases s, n
  {
    if n == 0 {
      ContractsBase(env, s);
    } else {
      var m, c := n - 1, s.targets[n - 1];
      ContractsUpTo(env, s, m);
      ContractsUpTo(env, c, |c.targets|);
      ContractsStep(env, s, m, c, n);
    }
  }

  /**
   * Listed root first, the components of the tree are exactly the sites that
   * are not absorbed. The list of each is what removing duplicates leaves of the
   * marked entries of the sites that land in it, in the order of the replica tree, and
   * its source is the replica-tree parent of its top site, however often it was
   * hoisted; the root names none.
   */
  lemma Contraction(env: Env, s: Replica)
    ensures var comps, hs := Flat(SiteValue(env.Build(s), "")), Heads(env, s, Paths(s));
      && Places(env, s, Paths(s), comps, hs)
      && forall k :: 0 <= k < |comps| ==> Uris(comps[k].component.resources) == env.MemberUris(s, Paths(s), hs[k])
  {
    ContractsUpTo(env, s, |s.targets|);
    var comps, hs := Flat(SiteValue(env.Build(s), "")), Heads(env, s, Paths(s));
    forall k | 0 <= k < |comps| ensures Uris(comps[k].component.resources) == env.MemberUris(s, Paths(s), hs[k]) {
      DedupUriSet(env.MemberEntries(s, Paths(s), hs[k]));
      EntriesUris(env, s, Paths(s), hs[k]);
    }
  }

  lemma {:induction false} EntriesUris(env: Env, s: Replica, ps: seq<Path>, h: Path)
    ensures Uris(env.MemberEntries(s, ps, h)) == env.MemberUris(s, ps, h)
  {
    if ps != [] {
      var init, p := ps[..|ps| - 1], ps[|ps| - 1];
      assert ps == init + [p];
      EntriesUris(env, s, init, h);
      UrisConcat(env.MemberEntries(s, init, h), env.EntriesOf(s, p, h));
      if ValidPath(s, p) {
        OwnUris(env, At(s, p));
      }
    }
  }

  lemma UrisConcat(a: seq<ResourceValue>, b: seq<ResourceValue>)
    ensures Uris(a + b) == Uris(a) + Uris(b)
  {
  }

  lemma OwnUris(env: Env, s: Replica)
    ensures Uris(env.Own(s.name).resources) == env.SiteUris(s)
  {
    var rs := Dedup(env.discover(s.name));
    DedupUriSet(env.discover(s.name));
    forall u ensures u in Uris(MarkAll(rs)) <==> u in Uris(rs) {
      if u in Uris(rs) {
        var k :| 0 <= k < |rs| && rs[k].uri == u;
        assert MarkAll(rs)[k].uri == u;
      }
    }
  }

  /**
   * Every entry of a component unites the marked entries discovered for the sites
   * that land there and keeps their first application records: no role, application
   * or related URI is lost or invented, over however many merges.
   */
  lemma EntriesUnite(env: Env, s: Replica, k: nat, j: nat)
    requires k < |Heads(env, s, Paths(s))|
    ensures var comps, hs := Flat(SiteValue(env.Build(s), "")), Heads(env, s, Paths(s));
      && |comps| == |hs|
      && var rs, all := comps[k].component.resources, env.MemberEntries(s, Paths(s), hs[k]);
         j < |rs| ==> Unites(rs[j], all) && KeepsRecords(rs[j], all)
  {
    Contraction(env, s);
    var comps, hs := Flat(SiteValue(env.Build(s), "")), Heads(env, s, Paths(s));
    var all := env.MemberEntries(s, Paths(s), hs[k]);
    if j < |comps[k].component.resources| {
      DedupUnites(all, j);
      DedupKeepsRecords(all, j);
    }
  }

  ghost function Absorbed(env: Env, s: Replica, ps: seq<Path>): nat {
    if ps == [] then 0
    else
      var p := ps[|ps| - 1];
      Absorbed(env, s, ps[..|ps| - 1]) + if ValidPath(s, p) && env.Contracted(s, p) then 1 else 0
  }

  /** There are as many components as sites that are not absorbed. */
  lemma ComponentCount(env: Env, s: Replica)
    ensures |Flat(SiteValue(env.Build(s), ""))| + Absorbed(env, s, Paths(s)) == |Paths(s)|
  {
    Contraction(env, s);
    forall p | p in Paths(s) ensures ValidPath(s, p) {
      PathsAreSites(s, |s.targets|, p);
    }
    HeadsCount(env, s, Paths(s));
  }

  lemma {:induction false} HeadsCount(env: Env, s: Replica, ps: seq<Path>)
    requires forall p :: p in ps ==> ValidPath(s, p)
    ensures |Heads(env, s, ps)| + Absorbed(env, s, ps) == |ps|
  {
    if ps != [] {
      HeadsCount(env, s, ps[..|ps| - 1]);
    }
  }

  /** A URI is in the component tree exactly when it was discovered for some site. */
  lemma UrisConserved(env: Env, s: Replica, u: string)
    ensures (exists c :: c in Flat(SiteValue(env.Build(s), "")) && u in Uris(c.component.resources))
       <==> (exists p :: ValidPath(s, p) && u in env.SiteUris(At(s, p)))
  {
    if exists p :: ValidPath(s, p) && u in env.SiteUris(At(s, p)) {
      var p :| ValidPath(s, p) && u in env.SiteUris(At(s, p));
      NoUriLost(env, s, p, u);
    }
    forall c | c in Flat(SiteValue(env.Build(s), "")) && u in Uris(c.component.resources)
      ensures exists p :: ValidPath(s, p) && u in env.SiteUris(At(s, p))
    {
      NoUriInvented(env, s, c, u);
    }
  }

  lemma NoUriLost(env: Env, s: Replica, p: Path, u: string)
    requires ValidPath(s, p) && u in env.SiteUris(At(s, p))
    ensures exists c :: c in Flat(SiteValue(env.Build(s), "")) && u in Uris(c.component.resources)
  {
    Contraction(env, s);
    var comps, hs := Flat(SiteValue(env.Build(s), "")), Heads(env, s, Paths(s));
    var k := HeadIndex(env, s, p);
    AllInPaths(s, p);
    assert u in env.MemberUris(s, Paths(s), hs[k]);
    assert comps[k] in comps && u in Uris(comps[k].component.resources);
  }

  lemma NoUriInvented(env: Env, s: Replica, c: SiteValue, u: string)
    requires c in Flat(SiteValue(env.Build(s), "")) && u in Uris(c.component.resources)
    ensures exists p :: ValidPath(s, p) && u in env.SiteUris(At(s, p))
  {
    Contraction(env, s);
    var comps, hs := Flat(SiteValue(env.Build(s), "")), Heads(env, s, Paths(s));
    var k :| 0 <= k < |comps| && comps[k] == c;
    assert u in env.MemberUris(s, Paths(s), hs[k]);
  }

  /** The component a site lands in. */
  lemma HeadIndex(env: Env, s: Replica, p: Path) returns (k: nat)
    requires ValidPath(s, p)
    ensures k < |Heads(env, s, Paths(s))| && Heads(env, s, Paths(s))[k] == env.Head(s, p)
  {
    HeadPrefix(env, s, p);
    HeadsFiltered(env, s, Paths(s));
    AllInPaths(s, env.Head(s, p));
    k :| 0 <= k < |Heads(env, s, Paths(s))| && Heads(env, s, Paths(s))[k] == env.Head(s, p);
  }

  lemma AllInPaths(s: Replica, p: Path)
    requires ValidPath(s, p)
    ensures p in Paths(s)
  {
    PathsAreSites(s, |s.targets|, p);
  }

  // ----- the database role --------------------------------------------------

  /** Every instance among the resources carries the database role. */
  ghost predicate AllDatabase(rs: seq<ResourceValue>) {
    forall r :: r in rs && IsInstance(r) ==> Database in Roles(r)
  }

  lemma DatabaseKept(rs: seq<ResourceValue>)
    requires AllDatabase(rs)
    ensures AllDatabase(Dedup(rs))
  {
    DedupUris(rs);
    forall r | r in Dedup(rs) && IsInstance(r)
      ensures Database in Roles(r)
    {
      var k :| 0 <= k < |Dedup(rs)| && Dedup(rs)[k] == r;
      assert Lookup(Dedup(rs), r.uri) == Some(r) by {
        forall j | 0 <= j < k ensures Dedup(rs)[j].uri != r.uri {
          assert ValueUri(Dedup(rs)[j]) != ValueUri(Dedup(rs)[k]);
        }
        IndexOfUnique(Dedup(rs), r.uri, k);
      }
      DedupGroups(rs, r.uri);
      GroupUnion(rs, r.uri);
      var i :| 0 <= i < |rs| && rs[i].uri == r.uri && r.kind == rs[i].kind;
      assert rs[i] in rs;
    }
  }

  /** A list without duplicate URIs whose instances carry the database role. */
  ghost predicate Proper(rs: seq<ResourceValue>) {
    AllDatabase(rs) && DistinctKeys(rs, ValueUri)
  }

  /** The lists of a component and of the components below it are proper. */
  ghost predicate AllBelow(c: ComponentValue) {
    Proper(c.resources) && forall f :: f in FlatAll(c.sites) ==> Proper(f.component.resources)
  }

  lemma AllBelowFlat(c: ComponentValue, source: string)
    requires AllBelow(c)
    ensures forall f :: f in Flat(SiteValue(c, source)) ==> Proper(f.component.resources)
  {
    assert Flat(SiteValue(c, source)) == [SiteValue(c, source)] + FlatAll(c.sites);
  }

  lemma AttachProper(env: Env, a: ComponentValue, name: string, b: ComponentValue)
    requires AllBelow(a) && AllBelow(b)
    ensures AllBelow(env.Attach(a, name, b))
  {
    if env.JoinsWith(name, b) {
      DatabaseKept(a.resources + b.resources);
      DedupUris(a.resources + b.resources);
      FlatAllConcat(a.sites, b.sites);
    } else {
      assert (a.sites + [SiteValue(b, name)])[..|a.sites|] == a.sites;
      AllBelowFlat(b, name);
    }
  }

  lemma {:induction false} BuiltAllBelow(env: Env, s: Replica, n: nat)
    requires n <= |s.targets|
    ensures AllBelow(env.BuildUpTo(s, n))
    decreases s, n
  {
    if n == 0 {
      OwnProper(env, s.name);
    } else {
      var m, c := n - 1, s.targets[n - 1];
      BuiltAllBelow(env, s, m);
      BuiltAllBelow(env, c, |c.targets|);
      AttachProper(env, env.BuildUpTo(s, m), s.name, env.Build(c));
    }
  }

  lemma OwnProper(env: Env, name: string)
    ensures AllBelow(env.Own(name))
  {
    var rs := Dedup(env.discover(name));
    DedupUris(env.discover(name));
    forall i, j | 0 <= i < j < |rs| ensures ValueUri(MarkAll(rs)[i]) != ValueUri(MarkAll(rs)[j]) {
      assert ValueUri(rs[i]) != ValueUri(rs[j]);
    }
  }

  /** Every instance in every component of the tree carries the database role. */
  lemma InstancesAreDatabases(env: Env, s: Replica, n: nat)
    requires n <= |s.targets|
    ensures forall c :: c in Flat(SiteValue(env.BuildUpTo(s, n), "")) ==> AllDatabase(c.component.resources)
  {
    BuiltAllBelow(env, s, n);
    AllBelowFlat(env.BuildUpTo(s, n), "");
  }
}

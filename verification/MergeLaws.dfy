/**
 * Merging duplicates is associative, so that it does not matter which parts of a
 * list were merged before (internal/system/discovery.go, removeDuplicates).
 */
module MergeLaws {
  import opened Common
  import opened Resources

  lemma {:induction false} AppendNewAssociative<T, K>(x: seq<T>, y: seq<T>, z: seq<T>, key: T -> K)
    ensures AppendNew(AppendNew(x, y, key), z, key) == AppendNew(x, AppendNew(y, z, key), key)
  {
    if z != [] {
      var init, e := z[..|z| - 1], z[|z| - 1];
      AppendNewAssociative(x, y, init, key);
      var part := AppendNew(y, init, key);
      AppendNewKeys(x, part, key);
      if HasKey(part, key, key(e)) {
        assert AppendNew(y, z, key) == part;
      } else {
        assert AppendNew(y, z, key) == part + [e];
        assert (part + [e])[..|part|] == part;
        assert AppendNew(x, part + [e], key)
            == if HasKey(AppendNew(x, part, key), key, key(e)) then AppendNew(x, part, key) else AppendNew(x, part, key) + [e];
      }
    }
  }

  lemma MergePropsAssociative(a: PropsValue, b: PropsValue, c: PropsValue)
    ensures MergeProps(MergeProps(a, b), c) == MergeProps(a, MergeProps(b, c))
  {
    AppendNewAssociative(a.apps, b.apps, c.apps, AppName);
  }

  lemma MergeAssociative(a: ResourceValue, b: ResourceValue, c: ResourceValue)
    ensures Merge(Merge(a, b), c) == Merge(a, Merge(b, c))
  {
    AppendNewAssociative(a.related, b.related, c.related, Same<string>);
    if a.props.Some? && b.props.Some? && c.props.Some? {
      MergePropsAssociative(a.props.value, b.props.value, c.props.value);
    }
  }

  lemma InsertMerged(out: seq<ResourceValue>, d: ResourceValue, v: ResourceValue)
    requires d.uri == v.uri
    ensures Insert(out, Merge(d, v)) == Insert(Insert(out, d), v)
  {
    var k := IndexOf(out, d.uri);
    if k < |out| {
      MergeAssociative(out[k], d, v);
      IndexOfUnique(Insert(out, d), v.uri, k);
    } else {
      IndexOfUnique(Insert(out, d), v.uri, |out|);
    }
  }

  lemma InsertCommutes(out: seq<ResourceValue>, v: ResourceValue, w: ResourceValue)
    requires v.uri != w.uri && IndexOf(out, v.uri) < |out|
    ensures Insert(Insert(out, w), v) == Insert(Insert(out, v), w)
    ensures IndexOf(Insert(out, w), v.uri) < |Insert(out, w)|
  {
    var i, j := IndexOf(out, v.uri), IndexOf(out, w.uri);
    IndexOfUnique(Insert(out, w), v.uri, i);
    IndexOfUnique(Insert(out, v), w.uri, j);
  }

  lemma {:induction false} InsertPast(out: seq<ResourceValue>, v: ResourceValue, ws: seq<ResourceValue>)
    requires IndexOf(out, v.uri) < |out| && forall w :: w in ws ==> w.uri != v.uri
    ensures DedupOnto(Insert(out, v), ws) == Insert(DedupOnto(out, ws), v)
    ensures IndexOf(DedupOnto(out, ws), v.uri) < |DedupOnto(out, ws)|
  {
    if ws != [] {
      var init, w := ws[..|ws| - 1], ws[|ws| - 1];
      assert ws == init + [w];
      InsertPast(out, v, init);
      InsertCommutes(DedupOnto(out, init), v, w);
    }
  }

  /** Inserting into a list with distinct URIs before or after that list is appended. */
  lemma InsertBefore(out: seq<ResourceValue>, ds: seq<ResourceValue>, v: ResourceValue)
    requires DistinctKeys(ds, ValueUri)
    ensures DedupOnto(out, Insert(ds, v)) == Insert(DedupOnto(out, ds), v)
  {
    var k := IndexOf(ds, v.uri);
    if k == |ds| {
      assert (ds + [v])[..|ds|] == ds;
    } else {
      var a, d, b := ds[..k], ds[k], ds[k + 1..];
      assert ds == a + [d] + b && Insert(ds, v) == a + [Merge(d, v)] + b;
      forall w | w in b ensures w.uri != v.uri {
        var i :| 0 <= i < |b| && b[i] == w;
        assert ValueUri(ds[k]) != ValueUri(ds[k + 1 + i]);
      }
      SplitAt(out, a, d, b);
      SplitAt(out, a, Merge(d, v), b);
      InsertMerged(DedupOnto(out, a), d, v);
      Inserted(DedupOnto(out, a), d);
      InsertPast(Insert(DedupOnto(out, a), d), v, b);
    }
  }

  lemma Inserted(out: seq<ResourceValue>, d: ResourceValue)
    ensures IndexOf(Insert(out, d), d.uri) < |Insert(out, d)|
  {
    var k := IndexOf(out, d.uri);
    IndexOfUnique(Insert(out, d), d.uri, k);
  }

  lemma SplitAt(out: seq<ResourceValue>, a: seq<ResourceValue>, d: ResourceValue, b: seq<ResourceValue>)
    ensures DedupOnto(out, a + [d] + b) == DedupOnto(Insert(DedupOnto(out, a), d), b)
  {
    DedupOntoSplit(out, a + [d], b);
    assert (a + [d])[..|a|] == a;
  }

  lemma {:induction false} DedupOntoAbsorbs(out: seq<ResourceValue>, vs: seq<ResourceValue>)
    ensures DedupOnto(out, Dedup(vs)) == DedupOnto(out, vs)
  {
    if vs != [] {
      var init, v := vs[..|vs| - 1], vs[|vs| - 1];
      DedupOntoAbsorbs(out, init);
      DedupUris(init);
      InsertBefore(out, Dedup(init), v);
    }
  }

  /** Removing duplicates early, in both parts of a list, changes nothing. */
  lemma DedupBoth(a: seq<ResourceValue>, b: seq<ResourceValue>)
    ensures Dedup(Dedup(a) + Dedup(b)) == Dedup(a + b)
  {
    DedupAbsorbs(a, Dedup(b));
    DedupOntoSplit([], a, Dedup(b));
    DedupOntoSplit([], a, b);
    DedupOntoAbsorbs(Dedup(a), b);
  }
}

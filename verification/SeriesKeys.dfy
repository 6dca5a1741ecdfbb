/**
 * The keys of cumulative time series
 * (internal/hanamonitoring/hanamonitoring.go, prepareKey).
 */
module SeriesKeys {
  import opened Text

  type Labels = map<string, string>

  datatype SeriesKey = SeriesKey(metricType: string, metricKind: string, metricLabels: string)

  // ----- sorting strings ----------------------------------------------------

  /** Lexicographic order. */
  predicate Le(a: string, b: string) {
    a == [] || (b != [] && (a[0] < b[0] || (a[0] == b[0] && Le(a[1..], b[1..]))))
  }

  /** Strings are compared at the first place where they differ, and a string comes after its prefixes. */
  lemma {:induction false} LeExactly(a: string, b: string)
    ensures Le(a, b) <==> a <= b || exists i :: 0 <= i < |a| && i < |b| && a[..i] == b[..i] && a[i] < b[i]
  {
    if a != [] && b != [] {
      var x, y := a[1..], b[1..];
      LeExactly(x, y);
      assert a == [a[0]] + x && b == [b[0]] + y;
      if a[0] == b[0] {
        assert a <= b <==> x <= y;
        if i :| 0 <= i < |x| && i < |y| && x[..i] == y[..i] && x[i] < y[i] {
          assert a[..i + 1] == [a[0]] + x[..i] == b[..i + 1] && a[i + 1] < b[i + 1];
        }
        if i :| 0 <= i < |a| && i < |b| && a[..i] == b[..i] && a[i] < b[i] {
          assert i > 0 && x[..i - 1] == a[..i][1..] == y[..i - 1];
          assert x[i - 1] == a[i] && y[i - 1] == b[i];
        }
      } else {
        if i :| 0 <= i < |a| && i < |b| && a[..i] == b[..i] && a[i] < b[i] {
          if i > 0 {
            HeadsAgree(a, b, i);
          }
        }
        assert a[..0] == b[..0];
      }
    }
  }

  lemma HeadsAgree(a: string, b: string, i: int)
    requires 0 < i <= |a| && i <= |b| && a[..i] == b[..i]
    ensures a[0] == b[0]
  {
    assert a[..i][0] == b[..i][0];
  }

  lemma {:induction false} LeTotal(a: string, b: string)
    ensures Le(a, b) || Le(b, a)
    ensures Le(a, b) && Le(b, a) ==> a == b
  {
    if a != [] && b != [] {
      LeTotal(a[1..], b[1..]);
      if a[0] == b[0] && a[1..] == b[1..] {
        assert a == [a[0]] + a[1..] && b == [b[0]] + b[1..];
      }
    }
  }

  lemma {:induction false} LeTransitive(a: string, b: string, c: string)
    requires Le(a, b) && Le(b, c)
    ensures Le(a, c)
  {
    if a != [] && a[0] == b[0] == c[0] {
      LeTransitive(a[1..], b[1..], c[1..]);
    }
  }

  predicate IsSorted(s: seq<string>) {
    forall i, j :: 0 <= i < j < |s| ==> Le(s[i], s[j])
  }

  function Insert(s: seq<string>, x: string): seq<string> {
    if s == [] || Le(x, s[0]) then [x] + s else [s[0]] + Insert(s[1..], x)
  }

  function Sorted(s: seq<string>): seq<string> {
    if s == [] then [] else Insert(Sorted(s[1..]), s[0])
  }

  lemma {:induction false} InsertBag(s: seq<string>, x: string)
    ensures multiset(Insert(s, x)) == multiset(s) + multiset{x}
  {
    if s != [] && !Le(x, s[0]) {
      InsertBag(s[1..], x);
      assert s == [s[0]] + s[1..];
    }
  }

  lemma {:induction false} InsertIsSorted(s: seq<string>, x: string)
    requires IsSorted(s)
    ensures IsSorted(Insert(s, x))
  {
    if s != [] {
      if Le(x, s[0]) {
        forall i | 0 <= i < |s| ensures Le(x, s[i]) {
          if i > 0 {
            LeTransitive(x, s[0], s[i]);
          }
        }
      } else {
        LeTotal(x, s[0]);
        InsertIsSorted(s[1..], x);
        InsertBag(s[1..], x);
        LeAll(s, x, Insert(s[1..], x));
      }
    }
  }

  /** What is inserted behind the head of a sorted list is not below the head. */
  lemma LeAll(s: seq<string>, x: string, rest: seq<string>)
    requires s != [] && IsSorted(s) && Le(s[0], x) && multiset(rest) == multiset(s[1..]) + multiset{x}
    ensures forall i :: 0 <= i < |rest| ==> Le(s[0], rest[i])
  {
    forall i | 0 <= i < |rest| ensures Le(s[0], rest[i]) {
      assert rest[i] in multiset(rest);
      assert rest[i] in s[1..] || rest[i] == x;
    }
  }

  lemma {:induction false} SortedIsSorted(s: seq<string>)
    ensures IsSorted(Sorted(s)) && multiset(Sorted(s)) == multiset(s)
  {
    if s != [] {
      SortedIsSorted(s[1..]);
      InsertIsSorted(Sorted(s[1..]), s[0]);
      InsertBag(Sorted(s[1..]), s[0]);
      assert s == [s[0]] + s[1..];
    }
  }

  /** A bag of strings has only one sorted list. */
  lemma {:induction false} SortedIsUnique(s: seq<string>, t: seq<string>)
    requires IsSorted(s) && IsSorted(t) && multiset(s) == multiset(t)
    ensures s == t
  {
    assert |s| == |multiset(s)| == |t|;
    if s != [] {
      SameHead(s, t);
      SortedTail(s);
      SortedTail(t);
      SortedIsUnique(s[1..], t[1..]);
      assert s == [s[0]] + s[1..] && t == [t[0]] + t[1..];
    }
  }

  lemma SortedTail(s: seq<string>)
    requires s != [] && IsSorted(s)
    ensures IsSorted(s[1..]) && multiset(s[1..]) == multiset(s) - multiset{s[0]}
  {
    HeadAndTail(s);
  }

  lemma HeadAndTail(s: seq<string>)
    requires s != []
    ensures multiset(s[1..]) == multiset(s) - multiset{s[0]}
  {
    assert s == [s[0]] + s[1..];
  }

  lemma SameHead(s: seq<string>, t: seq<string>)
    requires s != [] && t != [] && IsSorted(s) && IsSorted(t) && multiset(s) == multiset(t)
    ensures s[0] == t[0]
  {
    assert s[0] in multiset(t) && t[0] in multiset(s);
    FirstIsLeast(s, t[0]);
    FirstIsLeast(t, s[0]);
    LeTotal(s[0], t[0]);
  }

  lemma RemoveAt(s: seq<string>, k: nat)
    requires k < |s|
    ensures multiset(s[..k] + s[k + 1..]) == multiset(s) - multiset{s[k]}
  {
    assert s == s[..k] + [s[k]] + s[k + 1..];
  }

  lemma FirstIsLeast(s: seq<string>, x: string)
    requires IsSorted(s) && x in multiset(s)
    ensures Le(s[0], x)
  {
    var i :| 0 <= i < |s| && s[i] == x;
    if i == 0 {
      LeTotal(x, x);
    }
  }

  // ----- keys ---------------------------------------------------------------

  /** An order in which the labels may be visited. */
  ghost predicate Enumerates(names: seq<string>, labels: Labels) {
    && (forall n :: n in names <==> n in labels)
    && (forall i, j :: 0 <= i < j < |names| ==> names[i] != names[j])
  }

  /** The labels as "name:value", in the order visited. */
  function Entries(names: seq<string>, labels: Labels): (es: seq<string>)
    requires forall n :: n in names ==> n in labels
    ensures |es| == |names| && forall i :: 0 <= i < |names| ==> es[i] == names[i] + ":" + labels[names[i]]
  {
    seq(|names|, i requires 0 <= i < |names| => names[i] + ":" + labels[names[i]])
  }

  /** The key text of the labels, when they are visited in some order. */
  ghost predicate IsKeyText(labels: Labels, text: string) {
    exists names :: Enumerates(names, labels) && text == Join(Sorted(Entries(names, labels)), ',')
  }

  lemma {:induction false} EntriesBag(names: seq<string>, others: seq<string>, labels: Labels)
    requires forall n :: n in names ==> n in labels
    requires multiset(names) == multiset(others)
    decreases |names|
    ensures (forall n :: n in others ==> n in labels) && multiset(Entries(names, labels)) == multiset(Entries(others, labels))
  {
    forall n | n in others ensures n in labels {
      assert n in multiset(others) && n in multiset(names);
    }
    assert |names| == |multiset(names)| == |others|;
    if names != [] {
      assert names[0] in multiset(others);
      var k :| 0 <= k < |others| && others[k] == names[0];
      RemoveAt(names, 0);
      RemoveAt(others, k);
      EntriesBag(names[..0] + names[1..], others[..k] + others[k + 1..], labels);
      EntriesRemove(names, 0, labels);
      EntriesRemove(others, k, labels);
    }
  }

  lemma EntriesRemove(names: seq<string>, k: nat, labels: Labels)
    requires k < |names| && forall n :: n in names ==> n in labels
    ensures var rest := names[..k] + names[k + 1..];
      && (forall n :: n in rest ==> n in labels)
      && multiset(Entries(names, labels)) == multiset(Entries(rest, labels)) + multiset{names[k] + ":" + labels[names[k]]}
  {
    var es := Entries(names, labels);
    assert Entries(names[..k] + names[k + 1..], labels) == es[..k] + es[k + 1..];
    RemoveAt(es, k);
  }

  lemma {:induction false} DistinctBag(names: seq<string>, others: seq<string>)
    requires forall n :: n in names <==> n in others
    requires forall i, j :: 0 <= i < j < |names| ==> names[i] != names[j]
    requires forall i, j :: 0 <= i < j < |others| ==> others[i] != others[j]
    ensures multiset(names) == multiset(others)
  {
    forall n ensures multiset(names)[n] == multiset(others)[n] {
      OneEach(names, n);
      OneEach(others, n);
    }
  }

  lemma {:induction false} OneEach(names: seq<string>, n: string)
    requires forall i, j :: 0 <= i < j < |names| ==> names[i] != names[j]
    ensures multiset(names)[n] == if n in names then 1 else 0
  {
    if names != [] {
      var init, last := names[..|names| - 1], names[|names| - 1];
      assert names == init + [last];
      OneEach(init, n);
      assert last !in init;
    }
  }

  /** The key does not depend on the order in which the labels are visited. */
  lemma KeyIsUnique(labels: Labels, a: string, b: string)
    requires IsKeyText(labels, a) && IsKeyText(labels, b)
    ensures a == b
  {
    var ns :| Enumerates(ns, labels) && a == Join(Sorted(Entries(ns, labels)), ',');
    var ms :| Enumerates(ms, labels) && b == Join(Sorted(Entries(ms, labels)), ',');
    DistinctBag(ns, ms);
    EntriesBag(ns, ms, labels);
    SortedIsSorted(Entries(ns, labels));
    SortedIsSorted(Entries(ms, labels));
    SortedIsUnique(Sorted(Entries(ns, labels)), Sorted(Entries(ms, labels)));
  }

  /** Visits the labels in an arbitrary order. */
  method PrepareKey(mtype: string, mkind: string, labels: Labels) returns (key: SeriesKey)
    ensures key.metricType == mtype && key.metricKind == mkind && IsKeyText(labels, key.metricLabels)
  {
    var metricLabels: seq<string> := [];
    var todo := labels.Keys;
    ghost var names: seq<string> := [];
    while todo != {}
      invariant todo <= labels.Keys
      invariant forall n :: n in names <==> n in labels && n !in todo
      invariant forall i, j :: 0 <= i < j < |names| ==> names[i] != names[j]
      invariant metricLabels == Entries(names, labels)
    {
      var n :| n in todo;
      metricLabels := metricLabels + [n + ":" + labels[n]];
      names := names + [n];
      todo := todo - {n};
    }
    key := SeriesKey(mtype, mkind, Join(Sorted(metricLabels), ','));
    assert Enumerates(names, labels);
  }

  // ----- when different labels have different keys --------------------------

  /** Labels whose names have neither separator, and whose values have no comma. */
  ghost predicate Clean(labels: Labels) {
    forall n :: n in labels ==> ':' !in n && ',' !in n && ',' !in labels[n]
  }

  /** Clean labels are recovered from their key, so that different ones have different keys. */
  lemma CleanKeysDiffer(a: Labels, b: Labels, text: string)
    requires IsKeyText(a, text) && IsKeyText(b, text) && Clean(a) && Clean(b) && a != map[] && b != map[]
    ensures a == b
  {
    var ns :| Enumerates(ns, a) && text == Join(Sorted(Entries(ns, a)), ',');
    var ms :| Enumerates(ms, b) && text == Join(Sorted(Entries(ms, b)), ',');
    SplitKey(ns, a);
    SplitKey(ms, b);
    SameBag(ns, a, ms, b);
  }

  lemma SameBag(ns: seq<string>, a: Labels, ms: seq<string>, b: Labels)
    requires Enumerates(ns, a) && Enumerates(ms, b) && Clean(a) && Clean(b)
    requires multiset(Entries(ns, a)) == multiset(Entries(ms, b))
    ensures a == b
  {
    Included(ns, a, ms, b);
    Included(ms, b, ns, a);
  }

  lemma SplitKey(ns: seq<string>, a: Labels)
    requires Enumerates(ns, a) && Clean(a) && a != map[]
    ensures multiset(Split(Join(Sorted(Entries(ns, a)), ','), ',')) == multiset(Entries(ns, a))
  {
    var es := Entries(ns, a);
    SortedIsSorted(es);
    forall e | e in Sorted(es) ensures ',' !in e {
      assert e in multiset(es);
      var i :| 0 <= i < |es| && es[i] == e;
      assert ns[i] in a;
    }
    var n :| n in a;
    assert n in ns;
    assert |Sorted(es)| == |multiset(Sorted(es))| == |es|;
    SplitJoin(Sorted(es), ',');
  }

  lemma Included(ns: seq<string>, a: Labels, ms: seq<string>, b: Labels)
    requires Enumerates(ns, a) && Enumerates(ms, b) && Clean(a) && Clean(b)
    requires multiset(Entries(ns, a)) == multiset(Entries(ms, b))
    ensures forall n :: n in a ==> n in b && a[n] == b[n]
  {
    forall n | n in a ensures n in b && a[n] == b[n] {
      var i :| 0 <= i < |ns| && ns[i] == n;
      assert Entries(ns, a)[i] in multiset(Entries(ms, b));
      var j :| 0 <= j < |ms| && Entries(ms, b)[j] == Entries(ns, a)[i];
      assert ms[j] in b;
      NameIsUnique(n, a[n], ms[j], b[ms[j]]);
    }
  }

  lemma NameIsUnique(n: string, v: string, m: string, w: string)
    requires ':' !in n && ':' !in m && n + ":" + v == m + ":" + w
    ensures n == m && v == w
  {
    var e := n + ":" + v;
    assert e[|n|] == ':' && e[|m|] == ':';
    assert forall i :: 0 <= i < |n| ==> e[i] == n[i];
    assert forall i :: 0 <= i < |m| ==> e[i] == m[i];
    assert |n| == |m|;
    assert e[..|n|] == n && e[..|m|] == m && e[|n| + 1..] == v && e[|m| + 1..] == w;
  }
}

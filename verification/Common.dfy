/** Datatypes and sequence functions shared by the models. */
module Common {

  datatype Option<+T> = None | Some(value: T)

  /** The key under which an element that is its own key is compared. */
  function Same<T>(x: T): T {
    x
  }

  /** The keys of a list, in order. */
  function Keys<T, K>(s: seq<T>, key: T -> K): (r: seq<K>)
    ensures |r| == |s| && forall i :: 0 <= i < |s| ==> r[i] == key(s[i])
  {
    seq(|s|, i requires 0 <= i < |s| => key(s[i]))
  }

  ghost predicate HasKey<T, K>(s: seq<T>, key: T -> K, k: K) {
    exists i :: 0 <= i < |s| && key(s[i]) == k
  }

  ghost predicate DistinctKeys<T, K>(s: seq<T>, key: T -> K) {
    forall i, j :: 0 <= i < j < |s| ==> key(s[i]) != key(s[j])
  }

  /**
   * Appends the elements of `extra` to `base` in order, leaving out every
   * element whose key is already present.
   */
  ghost function AppendNew<T, K>(base: seq<T>, extra: seq<T>, key: T -> K): seq<T> {
    if extra == [] then base
    else
      var rest := AppendNew(base, extra[..|extra| - 1], key);
      var x := extra[|extra| - 1];
      if HasKey(rest, key, key(x)) then rest else rest + [x]
  }

  lemma {:induction false} AppendNewStep<T, K>(base: seq<T>, extra: seq<T>, key: T -> K, n: nat)
    requires n < |extra|
    ensures AppendNew(base, extra[..n + 1], key)
         == var rest := AppendNew(base, extra[..n], key);
            if HasKey(rest, key, key(extra[n])) then rest else rest + [extra[n]]
  {
    assert extra[..n + 1][..n] == extra[..n];
  }

  /** `base` stays a prefix, and a key is present exactly when one of the two lists has it. */
  lemma {:induction false} AppendNewKeys<T, K>(base: seq<T>, extra: seq<T>, key: T -> K)
    ensures base <= AppendNew(base, extra, key)
    ensures forall k :: HasKey(AppendNew(base, extra, key), key, k) <==> HasKey(base, key, k) || HasKey(extra, key, k)
    ensures forall x :: x in AppendNew(base, extra, key) ==> x in base || x in extra
  {
    if extra != [] {
      var init, x := extra[..|extra| - 1], extra[|extra| - 1];
      AppendNewKeys(base, init, key);
      var rest := AppendNew(base, init, key);
      assert extra == init + [x];
      forall k
        ensures HasKey(AppendNew(base, extra, key), key, k) <==> HasKey(base, key, k) || HasKey(extra, key, k)
      {
        HasKeyAppend(init, x, key, k);
        HasKeyAppend(rest, x, key, k);
      }
    }
  }

  lemma HasKeyAppend<T, K>(s: seq<T>, x: T, key: T -> K, k: K)
    ensures HasKey(s + [x], key, k) <==> HasKey(s, key, k) || key(x) == k
  {
    if HasKey(s, key, k) {
      var i :| 0 <= i < |s| && key(s[i]) == k;
      assert key((s + [x])[i]) == k;
    }
    if key(x) == k {
      assert key((s + [x])[|s|]) == k;
    }
  }

  lemma {:induction false} AppendNewDistinct<T, K>(base: seq<T>, extra: seq<T>, key: T -> K)
    requires DistinctKeys(base, key)
    ensures DistinctKeys(AppendNew(base, extra, key), key)
  {
    if extra != [] {
      AppendNewDistinct(base, extra[..|extra| - 1], key);
    }
  }

  /** Nothing is appended when every key is already there. */
  lemma {:induction false} AppendNewAbsorbs<T, K>(base: seq<T>, extra: seq<T>, key: T -> K)
    requires forall x :: x in extra ==> HasKey(base, key, key(x))
    ensures AppendNew(base, extra, key) == base
  {
    if extra != [] {
      AppendNewAbsorbs(base, extra[..|extra| - 1], key);
    }
  }

  /** A list with distinct keys, none of them in `base`, is appended whole. */
  lemma {:induction false} AppendNewWhole<T, K>(base: seq<T>, extra: seq<T>, key: T -> K)
    requires DistinctKeys(base + extra, key)
    ensures AppendNew(base, extra, key) == base + extra
  {
    if extra == [] {
      assert base + extra == base;
    } else {
      var init, x := extra[..|extra| - 1], extra[|extra| - 1];
      assert base + extra == base + init + [x];
      assert forall i :: 0 <= i < |base + init| ==> (base + init)[i] == (base + extra)[i];
      AppendNewWhole(base, init, key);
      assert extra == init + [x];
      forall i | 0 <= i < |base + init|
        ensures key((base + init)[i]) != key(x)
      {
        assert key((base + extra)[i]) != key((base + extra)[|base + init|]);
      }
    }
  }

  lemma {:induction false} AppendNewSplit<T, K>(base: seq<T>, a: seq<T>, b: seq<T>, key: T -> K)
    ensures AppendNew(base, a + b, key) == AppendNew(AppendNew(base, a, key), b, key)
  {
    if b == [] {
      assert a + b == a;
    } else {
      var init, x := b[..|b| - 1], b[|b| - 1];
      assert (a + b)[..|a + b| - 1] == a + init;
      AppendNewSplit(base, a, init, key);
    }
  }

  lemma TakeSnoc<T>(s: seq<T>, n: nat)
    requires n < |s|
    ensures s[..n + 1] == s[..n] + [s[n]]
  {
  }

  lemma TakeAll<T>(s: seq<T>)
    ensures s[..0] == [] && s[..|s|] == s
  {
  }

  lemma Regroup<T>(x: seq<T>, y: seq<T>, z: seq<T>)
    ensures x + (y + z) == x + y + z
  {
  }

  lemma TwiceInBag<T>(s: seq<T>, i: nat, j: nat)
    requires i < j < |s| && s[i] == s[j]
    ensures multiset(s)[s[i]] >= 2
  {
    assert s == s[..j] + s[j..];
    assert s[..j][i] == s[i] && s[j..][0] == s[i];
    assert multiset(s) == multiset(s[..j]) + multiset(s[j..]);
    assert s[i] in multiset(s[..j]) && s[i] in multiset(s[j..]);
  }

  /** The elements that the members of a list stand for, together. */
  ghost function Union<T, U>(s: seq<T>, f: T -> set<U>): set<U> {
    set i, x | 0 <= i < |s| && x in f(s[i]) :: x
  }

  lemma UnionConcat<T, U>(a: seq<T>, b: seq<T>, f: T -> set<U>)
    ensures Union(a + b, f) == Union(a, f) + Union(b, f)
  {
    forall x | x in Union(a + b, f) ensures x in Union(a, f) + Union(b, f) {
      var i :| 0 <= i < |a + b| && x in f((a + b)[i]);
      if i < |a| {
        assert x in f(a[i]);
      } else {
        assert x in f(b[i - |a|]);
      }
    }
    forall x | x in Union(a, f) ensures x in Union(a + b, f) {
      var i :| 0 <= i < |a| && x in f(a[i]);
      assert x in f((a + b)[i]);
    }
    forall x | x in Union(b, f) ensures x in Union(a + b, f) {
      var i :| 0 <= i < |b| && x in f(b[i]);
      assert x in f((a + b)[|a| + i]);
    }
  }
}

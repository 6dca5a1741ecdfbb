/**
 * Version strings of metrics and of the agent, and their comparison
 * (internal/collectiondefinition/validator.go, compareVersions).
 */
module Versions {
  import opened Text

  /** The number at a position of a version, 0 past its end. */
  function PartAt(v: string, i: nat): int {
    var parts := Split(v, '.');
    if i < |parts| then IntegerOf(parts[i]) else 0
  }

  /** Two versions agree at every position. */
  ghost predicate SameParts(a: string, b: string) {
    forall i: nat :: PartAt(a, i) == PartAt(b, i)
  }

  /** A version is earlier when it is smaller at the first position where the two differ. */
  ghost predicate Earlier(a: string, b: string) {
    exists i: nat :: EarlierAt(a, b, i)
  }

  ghost predicate EarlierAt(a: string, b: string, i: nat) {
    PartAt(a, i) < PartAt(b, i) && forall j: nat :: j < i ==> PartAt(a, j) == PartAt(b, j)
  }

  method Pad(a: seq<string>, n: nat) returns (padded: seq<string>)
    ensures |padded| == if |a| < n then n else |a|
    ensures forall i :: 0 <= i < |padded| ==> padded[i] == if i < |a| then a[i] else "0"
  {
    padded := a;
    while |padded| < n
      invariant |a| <= |padded| && (|padded| <= n || padded == a)
      invariant forall i :: 0 <= i < |padded| ==> padded[i] == if i < |a| then a[i] else "0"
    {
      padded := padded + ["0"];
    }
  }

  /** The padded parts of a version hold its numbers, and no number other than 0 is missing. */
  ghost predicate Holds(padded: seq<string>, v: string) {
    && (forall i :: 0 <= i < |padded| ==> IntegerOf(padded[i]) == PartAt(v, i))
    && (forall i: nat :: |padded| <= i ==> PartAt(v, i) == 0)
  }

  lemma PaddedHolds(padded: seq<string>, v: string)
    requires var parts := Split(v, '.');
      |parts| <= |padded| && forall i :: 0 <= i < |padded| ==> padded[i] == if i < |parts| then parts[i] else "0"
    ensures Holds(padded, v)
  {
    ZeroPart();
  }

  /** Compares two versions part by part, the shorter one padded with zeros. */
  method CompareVersions(a: string, b: string) returns (c: int)
    ensures c == Compare(a, b)
    ensures (c == -1 <==> Earlier(a, b)) && (c == 1 <==> Earlier(b, a)) && (c == 0 <==> SameParts(a, b))
  {
    Trichotomy(a, b);
    var aSplit, bSplit := Split(a, '.'), Split(b, '.');
    aSplit := Pad(aSplit, |bSplit|);
    bSplit := Pad(bSplit, |aSplit|);
    PaddedHolds(aSplit, a);
    PaddedHolds(bSplit, b);
    c := CompareParts(aSplit, bSplit);
    ghost var k: nat :| DiffersAt(aSplit, bSplit, c, k);
    Decide(aSplit, bSplit, a, b, c, k);
  }

  /** Goes through two lists of parts up to the first place where they differ. */
  method CompareParts(aSplit: seq<string>, bSplit: seq<string>) returns (c: int)
    requires |aSplit| == |bSplit|
    ensures exists k: nat :: DiffersAt(aSplit, bSplit, c, k)
  {
    for i := 0 to |aSplit|
      invariant forall j :: 0 <= j < i ==> IntegerOf(aSplit[j]) == IntegerOf(bSplit[j])
    {
      var aNum, bNum := IntegerOf(aSplit[i]), IntegerOf(bSplit[i]);
      if aNum < bNum {
        assert DiffersAt(aSplit, bSplit, -1, i);
        return -1;
      } else if aNum > bNum {
        assert DiffersAt(aSplit, bSplit, 1, i);
        return 1;
      }
    }
    assert DiffersAt(aSplit, bSplit, 0, |aSplit|);
    c := 0;
  }

  /** Result `c` goes with the first place `k` where two lists of parts differ, or the end if they do not. */
  ghost predicate DiffersAt(aSplit: seq<string>, bSplit: seq<string>, c: int, k: nat)
    requires |aSplit| == |bSplit|
  {
    && k <= |aSplit| && c in {-1, 0, 1} && (c == 0 <==> k == |aSplit|)
    && (forall j :: 0 <= j < k ==> IntegerOf(aSplit[j]) == IntegerOf(bSplit[j]))
    && (c == -1 ==> IntegerOf(aSplit[k]) < IntegerOf(bSplit[k]))
    && (c == 1 ==> IntegerOf(aSplit[k]) > IntegerOf(bSplit[k]))
  }

  lemma Decide(aSplit: seq<string>, bSplit: seq<string>, a: string, b: string, c: int, k: nat)
    requires |aSplit| == |bSplit| && Holds(aSplit, a) && Holds(bSplit, b) && DiffersAt(aSplit, bSplit, c, k)
    ensures c == Compare(a, b)
  {
    Trichotomy(a, b);
    assert forall j: nat :: j < k ==> PartAt(a, j) == PartAt(b, j);
    if c == 0 {
      assert SameParts(a, b);
    } else if c == -1 {
      assert EarlierAt(a, b, k);
    } else {
      assert EarlierAt(b, a, k);
    }
  }

  lemma ZeroPart()
    ensures IntegerOf("0") == 0
  {
    assert "0"[..0] == "";
    assert DigitsValue("0") == 0;
  }

  /** The result of a comparison: -1, 0 or 1. */
  ghost function Compare(a: string, b: string): int {
    if Earlier(a, b) then -1 else if Earlier(b, a) then 1 else 0
  }

  /** Exactly one of earlier, later and equal holds. */
  lemma Trichotomy(a: string, b: string)
    ensures !(Earlier(a, b) && Earlier(b, a))
    ensures !(Earlier(a, b) && SameParts(a, b)) && !(Earlier(b, a) && SameParts(a, b))
    ensures Earlier(a, b) || Earlier(b, a) || SameParts(a, b)
  {
    if Earlier(a, b) {
      var i: nat :| EarlierAt(a, b, i);
      forall j: nat ensures !EarlierAt(b, a, j) {
        assert j < i || j == i || i < j;
      }
    }
    if !SameParts(a, b) {
      var k: nat :| PartAt(a, k) != PartAt(b, k);
      var i := FirstDifference(a, b, k);
      assert EarlierAt(a, b, i) || EarlierAt(b, a, i);
    }
  }

  lemma {:induction false} FirstDifference(a: string, b: string, k: nat) returns (i: nat)
    requires PartAt(a, k) != PartAt(b, k)
    ensures PartAt(a, i) != PartAt(b, i) && forall j: nat :: j < i ==> PartAt(a, j) == PartAt(b, j)
    decreases k
  {
    if j: nat :| j < k && PartAt(a, j) != PartAt(b, j) {
      i := FirstDifference(a, b, j);
    } else {
      i := k;
    }
  }

  lemma EarlierTransitive(a: string, b: string, c: string)
    ensures Earlier(a, b) && Earlier(b, c) ==> Earlier(a, c)
  {
    if Earlier(a, b) && Earlier(b, c) {
      var i: nat :| EarlierAt(a, b, i);
      var j: nat :| EarlierAt(b, c, j);
      assert EarlierAt(a, c, if i < j then i else j);
    }
  }

  lemma EarlierSame(a: string, b: string, c: string)
    ensures Earlier(a, b) && SameParts(b, c) ==> Earlier(a, c)
    ensures SameParts(a, b) && Earlier(b, c) ==> Earlier(a, c)
    ensures SameParts(a, b) && SameParts(b, c) ==> SameParts(a, c)
  {
    if Earlier(a, b) && SameParts(b, c) {
      var i: nat :| EarlierAt(a, b, i);
      assert EarlierAt(a, c, i);
    }
    if SameParts(a, b) && Earlier(b, c) {
      var j: nat :| EarlierAt(b, c, j);
      assert EarlierAt(a, c, j);
    }
  }

  /** Comparison is a total preorder: reflexive, antisymmetric up to equality of the parts, and transitive. */
  lemma TotalPreorder(a: string, b: string, c: string)
    ensures Compare(a, a) == 0 && Compare(a, b) == -Compare(b, a)
    ensures Compare(a, b) == 0 <==> SameParts(a, b)
    ensures Compare(a, b) <= 0 && Compare(b, c) <= 0 ==> Compare(a, c) <= 0
    ensures Compare(a, b) <= 0 && Compare(b, c) <= 0 && Compare(a, c) == 0 ==> Compare(a, b) == 0 && Compare(b, c) == 0
  {
    Trichotomy(a, a);
    Trichotomy(a, b);
    Trichotomy(b, c);
    Trichotomy(a, c);
    EarlierTransitive(a, b, c);
    EarlierSame(a, b, c);
  }

  /** Trailing zero parts make no difference. */
  lemma PaddingIrrelevant(v: string)
    ensures Compare(v, v + ".0") == 0
  {
    SplitAppend(v, '.', "0");
    ZeroPart();
    assert v + "." + "0" == v + ".0";
    forall i: nat ensures PartAt(v, i) == PartAt(v + ".0", i) {
    }
    Trichotomy(v, v + ".0");
  }

  /** MAJOR.MINOR or MAJOR.MINOR.RELEASE, each a run of digits. */
  predicate IsVersion(v: string) {
    var parts := Split(v, '.');
    |parts| in {2, 3} && forall p :: p in parts ==> Digits(p)
  }
}

/**
 * What versions are, told from their text: runs of digits joined by dots, compared
 * as numbers from left to right (internal/collectiondefinition/validator.go).
 */
module VersionStrings {
  import opened Text
  import opened Versions

  // ----- digits -------------------------------------------------------------

  /** Decimal digits count ten times as much one place further left. */
  lemma PlaceValue(s: string, c: char)
    requires (forall x :: x in s ==> '0' <= x <= '9') && '0' <= c <= '9'
    ensures DigitsValue(s + [c]) == 10 * DigitsValue(s) + (c as int - '0' as int)
    ensures DigitsValue("") == 0
  {
    assert (s + [c])[..|s|] == s;
  }

  lemma DecimalPlaces(n: nat)
    ensures n < 10 ==> Decimal(n) == [('0' as int + n) as char]
    ensures n >= 10 ==> Decimal(n) == Decimal(n / 10) + [('0' as int + n % 10) as char]
  {
  }

  /** The number of a run of digits, which stops at the greatest 64-bit integer. */
  lemma NumberOfDigits(s: string)
    requires s != "" && forall c :: c in s ==> '0' <= c <= '9'
    ensures IntegerOf(s) == if DigitsValue(s) > 0x7fff_ffff_ffff_ffff then 0x7fff_ffff_ffff_ffff else DigitsValue(s)
  {
    assert s[0] in s;
  }

  // ----- the form of a version ----------------------------------------------

  /** Two or three runs of digits joined by dots. */
  ghost predicate IsDotted(v: string, p: seq<string>) {
    && |p| in {2, 3} && (forall x :: x in p ==> x != "" && forall c :: c in x ==> '0' <= c <= '9')
    && v == p[0] + "." + p[1] + if |p| == 3 then "." + p[2] else ""
  }

  lemma {:induction false} JoinSplit(s: string)
    ensures Join(Split(s, '.'), '.') == s
  {
    if s == [] {
      assert Split(s, '.') == [[]];
    } else {
      JoinSplit(s[1..]);
      var rest := Split(s[1..], '.');
      assert s == [s[0]] + s[1..];
      if s[0] == '.' {
        JoinFront("", rest);
        assert "" + "." + s[1..] == s;
      } else {
        JoinHead(s[0], rest);
      }
    }
  }

  lemma {:induction false} JoinFront(first: string, rest: seq<string>)
    requires rest != []
    ensures Join([first] + rest, '.') == first + "." + Join(rest, '.')
  {
    var all := [first] + rest;
    if |rest| == 1 {
      assert all[..1] == [first];
    } else {
      JoinFront(first, rest[..|rest| - 1]);
      assert all[..|all| - 1] == [first] + rest[..|rest| - 1];
    }
  }

  lemma {:induction false} JoinHead(c: char, parts: seq<string>)
    requires parts != []
    ensures Join([[c] + parts[0]] + parts[1..], '.') == [c] + Join(parts, '.')
  {
    var all := [[c] + parts[0]] + parts[1..];
    if |parts| > 1 {
      var init := parts[..|parts| - 1];
      JoinHead(c, init);
      assert all[..|all| - 1] == [[c] + init[0]] + init[1..];
    }
  }

  lemma JoinDotted(p: seq<string>)
    requires |p| in {2, 3}
    ensures Join(p, '.') == p[0] + "." + p[1] + if |p| == 3 then "." + p[2] else ""
  {
    assert p[..1] == [p[0]];
    assert p[..2][..1] == [p[0]] && p[..2][1] == p[1];
    if |p| == 2 {
      assert p[..2] == p;
    }
  }

  lemma NoDots(p: seq<string>)
    requires forall x :: x in p ==> x != "" && forall c :: c in x ==> '0' <= c <= '9'
    ensures forall x :: x in p ==> '.' !in x
  {
  }

  lemma SplitDotted(v: string, p: seq<string>)
    requires IsDotted(v, p)
    ensures Split(v, '.') == p
  {
    JoinDotted(p);
    NoDots(p);
    SplitJoin(p, '.');
  }

  /** A string has the form of a version exactly when it is two or three runs of digits joined by dots. */
  lemma IsVersionExactly(v: string)
    ensures IsVersion(v) <==> exists p :: IsDotted(v, p)
  {
    if p :| IsDotted(v, p) {
      SplitDotted(v, p);
    }
    if IsVersion(v) {
      var p := Split(v, '.');
      JoinSplit(v);
      JoinDotted(p);
      assert IsDotted(v, p);
    }
  }

  // ----- the order of versions ----------------------------------------------

  /** The i-th number of a version, 0 past its end. */
  ghost function Number(p: seq<string>, i: nat): int
    requires forall x :: x in p ==> forall c :: c in x ==> '0' <= c <= '9'
  {
    if i >= |p| then 0
    else
      assert p[i] in p;
      if DigitsValue(p[i]) > 0x7fff_ffff_ffff_ffff then 0x7fff_ffff_ffff_ffff else DigitsValue(p[i])
  }

  lemma PartsAre(v: string, p: seq<string>, i: nat)
    requires IsDotted(v, p)
    ensures PartAt(v, i) == Number(p, i)
  {
    SplitDotted(v, p);
    if i < |p| {
      assert p[i] in p;
      NumberOfDigits(p[i]);
    }
  }

  /** One version is earlier than another exactly when it is smaller at the first of three numbers where they differ. */
  lemma EarlierExactly(v: string, p: seq<string>, w: string, q: seq<string>)
    requires IsDotted(v, p) && IsDotted(w, q)
    ensures Earlier(v, w) <==>
      || Number(p, 0) < Number(q, 0)
      || (Number(p, 0) == Number(q, 0)
          && (Number(p, 1) < Number(q, 1) || (Number(p, 1) == Number(q, 1) && Number(p, 2) < Number(q, 2))))
  {
    forall i: nat ensures PartAt(v, i) == Number(p, i) && PartAt(w, i) == Number(q, i) {
      PartsAre(v, p, i);
      PartsAre(w, q, i);
    }
    EarlierByParts(v, w);
  }

  /** Only the first three parts of two versions can tell them apart, if all others are 0. */
  lemma EarlierByParts(v: string, w: string)
    requires forall i: nat :: i >= 3 ==> PartAt(v, i) == PartAt(w, i)
    ensures Earlier(v, w) <==>
      || PartAt(v, 0) < PartAt(w, 0)
      || (PartAt(v, 0) == PartAt(w, 0)
          && (PartAt(v, 1) < PartAt(w, 1) || (PartAt(v, 1) == PartAt(w, 1) && PartAt(v, 2) < PartAt(w, 2))))
  {
    if i: nat :| EarlierAt(v, w, i) {
      assert i == 0 || i == 1 || i == 2;
    }
    EarlierAtPlace(v, w, 0);
    EarlierAtPlace(v, w, 1);
    EarlierAtPlace(v, w, 2);
    assert EarlierAt(v, w, 0) || EarlierAt(v, w, 1) || EarlierAt(v, w, 2) <==> Earlier(v, w);
  }

  lemma EarlierAtPlace(v: string, w: string, i: nat)
    requires i < 3
    ensures EarlierAt(v, w, i) <==>
      && PartAt(v, i) < PartAt(w, i)
      && (i > 0 ==> PartAt(v, 0) == PartAt(w, 0)) && (i > 1 ==> PartAt(v, 1) == PartAt(w, 1))
  {
  }

  /** A version written in decimal notation. */
  ghost function Written(a: seq<nat>): string
    requires |a| in {2, 3}
  {
    Decimal(a[0]) + "." + Decimal(a[1]) + if |a| == 3 then "." + Decimal(a[2]) else ""
  }

  lemma WrittenIsDotted(a: seq<nat>) returns (p: seq<string>)
    requires |a| in {2, 3} && forall i :: 0 <= i < |a| ==> a[i] <= 0x7fff_ffff_ffff_ffff
    ensures IsDotted(Written(a), p) && |p| == |a| && forall i :: 0 <= i < |a| ==> Number(p, i) == a[i]
  {
    DecimalDigits(a[0]);
    DecimalDigits(a[1]);
    p := [Decimal(a[0]), Decimal(a[1])];
    if |a| == 3 {
      DecimalDigits(a[2]);
      p := p + [Decimal(a[2])];
    }
  }

  /** Written versions are compared number by number, the third being 0 if there is none. */
  lemma WrittenEarlier(a: seq<nat>, b: seq<nat>)
    requires |a| in {2, 3} && forall i :: 0 <= i < |a| ==> a[i] <= 0x7fff_ffff_ffff_ffff
    requires |b| in {2, 3} && forall i :: 0 <= i < |b| ==> b[i] <= 0x7fff_ffff_ffff_ffff
    ensures var a2, b2 := if |a| == 3 then a[2] else 0, if |b| == 3 then b[2] else 0;
      Earlier(Written(a), Written(b)) <==> a[0] < b[0] || (a[0] == b[0] && (a[1] < b[1] || (a[1] == b[1] && a2 < b2)))
  {
    var p := WrittenIsDotted(a);
    var q := WrittenIsDotted(b);
    EarlierExactly(Written(a), p, Written(b), q);
  }
}

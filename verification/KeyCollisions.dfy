/**
 * When two rows of one query have the same series key
 * (internal/hanamonitoring/hanamonitoring.go, prepareKey). The labels of all rows
 * have the same names, and the same values for the names that do not come from columns.
 */
module KeyCollisions {
  import opened Common
  import opened Text
  import opened SeriesKeys

  ghost predicate Contains(s: string, part: string) {
    exists i :: OccursAt(s, part, i)
  }

  predicate OccursAt(s: string, part: string, i: int) {
    0 <= i <= |s| - |part| && s[i..i + |part|] == part
  }

  // ----- texts of values between fixed texts --------------------------------

  /** What separates the value before a name from the value of the name. */
  function Separator(name: string): string {
    "," + name + ":"
  }

  /** The text after the first value: every further separator, with its value. */
  function Tail(seps: seq<string>, values: seq<string>): string
    requires |seps| == |values|
  {
    if seps == [] then "" else seps[0] + values[0] + Tail(seps[1..], values[1..])
  }

  /** A separator between two values occurs somewhere else in them and itself. */
  ghost predicate Elsewhere(v: string, sep: string, w: string) {
    exists i :: i != |v| && OccursAt(v + sep + w, sep, i)
  }

  /** Some separator occurs elsewhere between the two values around it. */
  ghost predicate Ambiguous(first: string, seps: seq<string>, values: seq<string>)
    requires |seps| == |values|
    decreases |seps|
  {
    seps != [] && (Elsewhere(first, seps[0], values[0]) || Ambiguous(values[0], seps[1..], values[1..]))
  }

  lemma TailHead(first: string, seps: seq<string>, values: seq<string>)
    requires |seps| == |values| && seps != []
    ensures first + Tail(seps, values) == first + seps[0] + values[0] + Tail(seps[1..], values[1..])
    ensures first + Tail(seps, values) == first + seps[0] + (values[0] + Tail(seps[1..], values[1..]))
  {
    MoveLeft(first, seps[0], values[0], Tail(seps[1..], values[1..]));
  }

  lemma MoveLeft(w: string, x: string, y: string, z: string)
    ensures w + (x + y + z) == w + x + (y + z) == w + x + y + z
  {
  }

  /** Another reading begins the separator before the end of the first two values: there it occurs elsewhere. */
  lemma EarlyIsElsewhere(first: string, sep: string, v: string, rest: string, first': string, u: string)
    requires first + sep + v + rest == first' + sep + u
    requires |first| != |first'| <= |first| + |v|
    ensures Elsewhere(first, sep, v)
  {
    var t, i := first + sep + v, |first'|;
    assert (first' + sep + u)[i..i + |sep|] == sep;
    assert (t + rest)[i..i + |sep|] == t[i..i + |sep|];
    assert OccursAt(t, sep, i);
  }

  /** Another reading begins the separator later: then the text after the separator has another reading. */
  lemma LateMovesOn(first: string, sep: string, v: string, rest: string, first': string, v': string,
                    rest': string) returns (next: string)
    requires first + sep + v + rest == first' + sep + v' + rest' && |first'| > |first| + |v|
    ensures v + rest == next + rest' && |next| > |v|
  {
    next := (first' + sep + v')[|first| + |sep|..];
    assert (first + sep + v + rest)[|first| + |sep|..] == v + rest;
    assert (first' + sep + v' + rest')[|first| + |sep|..] == next + rest';
  }

  /** Two different readings of one text: each of them is ambiguous. */
  lemma {:induction false} DifferentIsAmbiguous(first: string, values: seq<string>, first': string, values': seq<string>,
        seps: seq<string>)
    requires |seps| == |values| == |values'|
    requires first + Tail(seps, values) == first' + Tail(seps, values')
    requires first != first' || values != values'
    ensures Ambiguous(first, seps, values)
    decreases |seps|
  {
    assert first + "" == first && first' + "" == first';
    if seps != [] {
      var rest, rest' := Tail(seps[1..], values[1..]), Tail(seps[1..], values'[1..]);
      TailHead(first, seps, values);
      TailHead(first', seps, values');
      if |first'| == |first| {
        SameFirst(first, first', seps[0], values[0] + rest, values'[0] + rest');
        RestDiffers(values, values');
        DifferentIsAmbiguous(values[0], values[1..], values'[0], values'[1..], seps[1..]);
      } else if |first'| <= |first| + |values[0]| {
        EarlyIsElsewhere(first, seps[0], values[0], rest, first', values'[0] + rest');
      } else {
        var next := LateMovesOn(first, seps[0], values[0], rest, first', values'[0], rest');
        DifferentIsAmbiguous(values[0], values[1..], next, values'[1..], seps[1..]);
      }
    }
  }

  lemma SameFirst(first: string, first': string, sep: string, u: string, v: string)
    requires first + sep + u == first' + sep + v && |first| == |first'|
    ensures first == first' && u == v
  {
    var t := first + sep + u;
    assert t[..|first|] == first && t[..|first|] == first';
    assert t[|first| + |sep|..] == u && t[|first| + |sep|..] == v;
  }

  lemma RestDiffers(values: seq<string>, values': seq<string>)
    requires |values| == |values'| > 0 && values != values'
    ensures values[0] != values'[0] || values[1..] != values'[1..]
  {
    assert values == [values[0]] + values[1..] && values' == [values'[0]] + values'[1..];
  }

  /** An ambiguous reading has another one. */
  lemma {:induction false} AmbiguousHasOther(first: string, seps: seq<string>, values: seq<string>)
    returns (first': string, values': seq<string>)
    requires |seps| == |values| && Ambiguous(first, seps, values)
    ensures |values'| == |values| && (first' != first || values' != values)
    ensures first' + Tail(seps, values') == first + Tail(seps, values)
    decreases |seps|
  {
    TailHead(first, seps, values);
    if Elsewhere(first, seps[0], values[0]) {
      var v;
      first', v := OtherCut(first, seps[0], values[0]);
      values' := [v] + values[1..];
      assert values'[1..] == values[1..];
    } else {
      var f, vs := AmbiguousHasOther(values[0], seps[1..], values[1..]);
      first', values' := first, [f] + vs;
      assert values'[1..] == vs;
    }
    TailHead(first', seps, values');
  }

  lemma OtherCut(v: string, sep: string, w: string) returns (v': string, w': string)
    requires Elsewhere(v, sep, w)
    ensures v' + sep + w' == v + sep + w && v' != v
  {
    var t := v + sep + w;
    var i :| i != |v| && OccursAt(t, sep, i);
    v', w' := t[..i], t[i + |sep|..];
  }

  // ----- the order of names in a key ----------------------------------------

  ghost predicate PlainNames(names: seq<string>) {
    forall n :: n in names ==> ':' !in n && ',' !in n
  }

  /** Names in the order in which their entries come in a key, whatever the values. */
  ghost predicate InKeyOrder(order: seq<string>) {
    forall i, j :: 0 <= i < j < |order| ==> Le(order[i] + ":", order[j] + ":")
  }

  lemma {:induction false} LeEntries(n: string, m: string, v: string, w: string)
    requires ':' !in n && ':' !in m && n != m && Le(n + ":", m + ":")
    ensures Le(n + ":" + v, m + ":" + w)
    decreases |n|
  {
    var x, y := n + ":" + v, m + ":" + w;
    if n == "" {
      assert m[0] != ':' && (m + ":")[0] == m[0] && y[0] == m[0];
    } else if m == "" {
      assert n[0] != ':' && (n + ":")[0] == n[0] && x[0] == n[0];
    } else {
      assert (n + ":")[0] == n[0] == x[0] && (m + ":")[0] == m[0] == y[0];
      assert (n + ":")[1..] == n[1..] + ":" && (m + ":")[1..] == m[1..] + ":";
      assert x[1..] == n[1..] + ":" + v && y[1..] == m[1..] + ":" + w;
      if n[0] == m[0] {
        assert n == [n[0]] + n[1..] && m == [m[0]] + m[1..];
        LeEntries(n[1..], m[1..], v, w);
      }
    }
  }

  lemma EntriesAreSorted(order: seq<string>, labels: Labels)
    requires Enumerates(order, labels) && InKeyOrder(order) && PlainNames(order)
    ensures IsSorted(Entries(order, labels))
  {
    forall i, j | 0 <= i < j < |order| ensures Le(Entries(order, labels)[i], Entries(order, labels)[j]) {
      assert order[i] in order && order[j] in order;
      LeEntries(order[i], order[j], labels[order[i]], labels[order[j]]);
    }
  }

  /** The key text is the entries in key order, joined. */
  lemma KeyTextIs(labels: Labels, order: seq<string>, text: string)
    requires Enumerates(order, labels) && InKeyOrder(order) && PlainNames(order)
    ensures IsKeyText(labels, text) <==> text == Join(Entries(order, labels), ',')
  {
    var es := Entries(order, labels);
    EntriesAreSorted(order, labels);
    SortedIsSorted(es);
    SortedIsUnique(es, Sorted(es));
    var own := Join(Sorted(es), ',');
    assert IsKeyText(labels, own);
    if IsKeyText(labels, text) {
      KeyIsUnique(labels, text, own);
    }
  }

  // ----- the entries of a key, with the given names fixed -------------------

  /** Every text with a comma before it. */
  function Rest(es: seq<string>): string {
    if es == [] then "" else "," + es[0] + Rest(es[1..])
  }

  lemma {:induction false} RestSnoc(es: seq<string>, e: string)
    ensures Rest(es + [e]) == Rest(es) + "," + e
  {
    if es == [] {
      assert ([] + [e])[1..] == [];
    } else {
      RestSnoc(es[1..], e);
      assert (es + [e])[1..] == es[1..] + [e];
    }
  }

  lemma {:induction false} JoinIsRest(es: seq<string>)
    requires es != []
    ensures Join(es, ',') == es[0] + Rest(es[1..])
  {
    var init, e := es[..|es| - 1], es[|es| - 1];
    if |es| == 1 {
      assert es[0] + "" == es[0];
    } else {
      JoinIsRest(init);
      RestSnoc(init[1..], e);
      assert es[1..] == init[1..] + [e];
    }
  }

  /** A text as values of free names, each after a fixed text, and a fixed text at the end. */
  datatype Folded = Folded(seps: seq<string>, values: seq<string>, rest: string)

  /** The entries of names after a text. The entries of names in `base` belong to the fixed texts. */
  function Fold(pre: string, order: seq<string>, labels: Labels, base: set<string>): (f: Folded)
    requires forall n :: n in order ==> n in labels
    ensures |f.seps| == |f.values| <= |order|
    decreases |order|
  {
    if order == [] then Folded([], [], pre)
    else
      var n := order[0];
      if n in base then Fold(pre + Separator(n) + labels[n], order[1..], labels, base)
      else
        var f := Fold("", order[1..], labels, base);
        Folded([pre + Separator(n)] + f.seps, [labels[n]] + f.values, f.rest)
  }

  lemma {:induction false} FoldText(pre: string, order: seq<string>, labels: Labels, base: set<string>)
    requires forall n :: n in order ==> n in labels
    ensures var f := Fold(pre, order, labels, base); pre + Rest(Entries(order, labels)) == Tail(f.seps, f.values) + f.rest
    decreases |order|
  {
    if order == [] {
      assert pre + "" == pre == "" + pre;
    } else {
      var n, rest := order[0], Entries(order[1..], labels);
      assert Entries(order, labels)[1..] == rest && Entries(order, labels)[0] == n + ":" + labels[n];
      assert pre + Rest(Entries(order, labels)) == pre + Separator(n) + labels[n] + Rest(rest);
      if n in base {
        FoldText(pre + Separator(n) + labels[n], order[1..], labels, base);
      } else {
        FoldText("", order[1..], labels, base);
        var f := Fold("", order[1..], labels, base);
        assert "" + Rest(rest) == Rest(rest);
        FoldFree(pre + Separator(n), labels[n], f);
      }
    }
  }

  lemma FoldFree(sep: string, v: string, f: Folded)
    requires |f.seps| == |f.values|
    ensures sep + v + (Tail(f.seps, f.values) + f.rest) == Tail([sep] + f.seps, [v] + f.values) + f.rest
  {
    assert ([sep] + f.seps)[1..] == f.seps && ([v] + f.values)[1..] == f.values;
  }

  ghost predicate SameBase(a: Labels, b: Labels, base: set<string>) {
    forall n :: n in base && n in a && n in b ==> a[n] == b[n]
  }

  /** Labels that agree on the fixed names have the same fixed texts. They differ in the values of free names if at all. */
  lemma {:induction false} FoldAgree(pre: string, order: seq<string>, a: Labels, b: Labels, base: set<string>)
    requires (forall n :: n in order ==> n in a && n in b) && SameBase(a, b, base)
    ensures var f, g := Fold(pre, order, a, base), Fold(pre, order, b, base);
      f.seps == g.seps && f.rest == g.rest && (f.values == g.values <==> forall n :: n in order ==> a[n] == b[n])
    decreases |order|
  {
    if order != [] {
      var n, rest := order[0], order[1..];
      assert order == [n] + rest;
      FoldAgree(if n in base then pre + Separator(n) + a[n] else "", rest, a, b, base);
      if n !in base {
        var f, g := Fold("", rest, a, base), Fold("", rest, b, base);
        ConsSame(a[n], f.values, b[n], g.values);
      }
    }
  }

  lemma ConsSame(v: string, vs: seq<string>, w: string, ws: seq<string>)
    ensures [v] + vs == [w] + ws <==> v == w && vs == ws
  {
    assert ([v] + vs)[0] == v && ([w] + ws)[0] == w;
    assert ([v] + vs)[1..] == vs && ([w] + ws)[1..] == ws;
  }

  /** Any other values of the free names are those of other labels. */
  lemma {:induction false} Refold(pre: string, order: seq<string>, a: Labels, base: set<string>,
                                  values: seq<string>) returns (b: Labels)
    requires (forall n :: n in order ==> n in a) && |values| == |Fold(pre, order, a, base).values|
    requires forall i, j :: 0 <= i < j < |order| ==> order[i] != order[j]
    ensures b.Keys == a.Keys && SameBase(a, b, base) && Fold(pre, order, b, base).values == values
    ensures forall n :: n in a && n !in order ==> b[n] == a[n]
    decreases |order|
  {
    if order == [] {
      b := a;
    } else {
      var n, rest := order[0], order[1..];
      assert order == [n] + rest;
      if n in base {
        b := Refold(pre + Separator(n) + a[n], rest, a, base, values);
      } else {
        var c := Refold("", rest, a, base, values[1..]);
        b := c[n := values[0]];
        FoldElsewhere("", rest, b, c, base);
        assert values == [values[0]] + values[1..];
      }
    }
  }

  lemma {:induction false} FoldElsewhere(pre: string, order: seq<string>, a: Labels, b: Labels, base: set<string>)
    requires forall n :: n in order ==> n in a && n in b && a[n] == b[n]
    ensures Fold(pre, order, a, base) == Fold(pre, order, b, base)
    decreases |order|
  {
    if order != [] {
      var n, rest := order[0], order[1..];
      assert order == [n] + rest;
      FoldElsewhere(if n in base then pre + Separator(n) + a[n] else "", rest, a, b, base);
    }
  }

  // ----- where fixed names may stand ----------------------------------------

  /** The text from the end of the value before some names to the value of the j-th of them. */
  function Lead(order: seq<string>, labels: Labels, j: nat): string
    requires j < |order| && forall n :: n in order ==> n in labels
    decreases j
  {
    if j == 0 then Separator(order[0]) else Separator(order[0]) + labels[order[0]] + Lead(order[1..], labels, j - 1)
  }

  /**
   * Two free names with none but fixed names between them in the key. What
   * separates their values occurs elsewhere between the two.
   */
  ghost predicate CrowdedPair(labels: Labels, order: seq<string>, base: set<string>, i: int, j: int)
    requires forall n :: n in order ==> n in labels
  {
    && 0 <= i < j < |order| && order[i] !in base && order[j] !in base && (forall k :: i < k < j ==> order[k] in base)
    && Elsewhere(labels[order[i]], Lead(order[i + 1..], labels, j - i - 1), labels[order[j]])
  }

  ghost predicate Crowded(labels: Labels, order: seq<string>, base: set<string>)
    requires forall n :: n in order ==> n in labels
  {
    exists i, j :: CrowdedPair(labels, order, base, i, j)
  }

  /** What separates a value, and a text after it, from the first free name occurs elsewhere. */
  ghost predicate CrowdedFirst(v: string, pre: string, labels: Labels, order: seq<string>, base: set<string>, j: int)
    requires forall n :: n in order ==> n in labels
  {
    && 0 <= j < |order| && order[j] !in base && (forall k :: 0 <= k < j ==> order[k] in base)
    && Elsewhere(v, pre + Lead(order, labels, j), labels[order[j]])
  }

  ghost predicate CrowdedStart(v: string, pre: string, labels: Labels, order: seq<string>, base: set<string>)
    requires forall n :: n in order ==> n in labels
  {
    exists j :: CrowdedFirst(v, pre, labels, order, base, j)
  }

  lemma StartFixed(v: string, pre: string, labels: Labels, order: seq<string>, base: set<string>)
    requires order != [] && order[0] in base && forall n :: n in order ==> n in labels
    ensures CrowdedStart(v, pre, labels, order, base)
       <==> CrowdedStart(v, pre + Separator(order[0]) + labels[order[0]], labels, order[1..], base)
  {
    var rest, pre' := order[1..], pre + Separator(order[0]) + labels[order[0]];
    forall j | 0 < j < |order| ensures pre + Lead(order, labels, j) == pre' + Lead(rest, labels, j - 1) {
      MoveLeft(pre, Separator(order[0]), labels[order[0]], Lead(rest, labels, j - 1));
    }
    if j :| CrowdedFirst(v, pre, labels, order, base, j) {
      assert CrowdedFirst(v, pre', labels, rest, base, j - 1);
    }
    if j :| CrowdedFirst(v, pre', labels, rest, base, j) {
      assert CrowdedFirst(v, pre, labels, order, base, j + 1);
    }
  }

  lemma StartFree(v: string, pre: string, labels: Labels, order: seq<string>, base: set<string>)
    requires order != [] && order[0] !in base && forall n :: n in order ==> n in labels
    ensures CrowdedStart(v, pre, labels, order, base) <==> Elsewhere(v, pre + Separator(order[0]), labels[order[0]])
  {
    if Elsewhere(v, pre + Separator(order[0]), labels[order[0]]) {
      assert CrowdedFirst(v, pre, labels, order, base, 0);
    }
  }

  lemma PairShifts(labels: Labels, order: seq<string>, base: set<string>, i: int, j: int)
    requires order != [] && 0 < i && forall n :: n in order ==> n in labels
    ensures CrowdedPair(labels, order, base, i, j) <==> CrowdedPair(labels, order[1..], base, i - 1, j - 1)
  {
    var rest := order[1..];
    if i < j < |order| {
      assert rest[i..] == order[i + 1..];
      assert rest[i - 1] == order[i] && rest[j - 1] == order[j];
      assert forall k :: i < k < j ==> order[k] == rest[k - 1];
      assert forall k :: i - 1 < k < j - 1 ==> rest[k] == order[k + 1];
    }
  }

  lemma CrowdedFixed(labels: Labels, order: seq<string>, base: set<string>)
    requires order != [] && order[0] in base && forall n :: n in order ==> n in labels
    ensures Crowded(labels, order, base) <==> Crowded(labels, order[1..], base)
  {
    if i, j :| CrowdedPair(labels, order, base, i, j) {
      PairShifts(labels, order, base, i, j);
      assert CrowdedPair(labels, order[1..], base, i - 1, j - 1);
    }
    if i, j :| CrowdedPair(labels, order[1..], base, i, j) {
      PairShifts(labels, order, base, i + 1, j + 1);
      assert CrowdedPair(labels, order, base, i + 1, j + 1);
    }
  }

  lemma FirstPair(labels: Labels, order: seq<string>, base: set<string>, j: int)
    requires order != [] && order[0] !in base && forall n :: n in order ==> n in labels
    ensures CrowdedPair(labels, order, base, 0, j) <==> CrowdedFirst(labels[order[0]], "", labels, order[1..], base, j - 1)
  {
    var rest := order[1..];
    if 0 < j < |order| {
      assert "" + Lead(rest, labels, j - 1) == Lead(rest, labels, j - 1);
      assert forall k :: 0 < k < j ==> order[k] == rest[k - 1];
      assert forall k :: 0 <= k < j - 1 ==> rest[k] == order[k + 1];
    }
  }

  lemma CrowdedFree(labels: Labels, order: seq<string>, base: set<string>)
    requires order != [] && order[0] !in base && forall n :: n in order ==> n in labels
    ensures Crowded(labels, order, base)
       <==> CrowdedStart(labels[order[0]], "", labels, order[1..], base) || Crowded(labels, order[1..], base)
  {
    if i, j :| CrowdedPair(labels, order, base, i, j) {
      if i == 0 {
        FirstPair(labels, order, base, j);
        assert CrowdedFirst(labels[order[0]], "", labels, order[1..], base, j - 1);
      } else {
        PairShifts(labels, order, base, i, j);
        assert CrowdedPair(labels, order[1..], base, i - 1, j - 1);
      }
    }
    if j :| CrowdedFirst(labels[order[0]], "", labels, order[1..], base, j) {
      FirstPair(labels, order, base, j + 1);
      assert CrowdedPair(labels, order, base, 0, j + 1);
    }
    if i, j :| CrowdedPair(labels, order[1..], base, i, j) {
      PairShifts(labels, order, base, i + 1, j + 1);
      assert CrowdedPair(labels, order, base, i + 1, j + 1);
    }
  }

  /** Whether folded entries are ambiguous after a value, told from the names. */
  lemma {:induction false} AmbiguousAfter(v: string, pre: string, labels: Labels, order: seq<string>, base: set<string>)
    requires forall n :: n in order ==> n in labels
    ensures var f := Fold(pre, order, labels, base);
      Ambiguous(v, f.seps, f.values) <==> CrowdedStart(v, pre, labels, order, base) || Crowded(labels, order, base)
    decreases |order|
  {
    if order != [] {
      var n, rest := order[0], order[1..];
      if n in base {
        AmbiguousAfter(v, pre + Separator(n) + labels[n], labels, rest, base);
        StartFixed(v, pre, labels, order, base);
        CrowdedFixed(labels, order, base);
      } else {
        var f := Fold("", rest, labels, base);
        AmbiguousAfter(labels[n], "", labels, rest, base);
        StartFree(v, pre, labels, order, base);
        CrowdedFree(labels, order, base);
        ConsAmbiguous(v, pre + Separator(n), labels[n], f);
      }
    }
  }

  lemma ConsAmbiguous(v: string, sep: string, w: string, f: Folded)
    requires |f.seps| == |f.values|
    ensures Ambiguous(v, [sep] + f.seps, [w] + f.values) <==> Elsewhere(v, sep, w) || Ambiguous(w, f.seps, f.values)
  {
    assert ([sep] + f.seps)[1..] == f.seps && ([w] + f.values)[1..] == f.values;
  }

  /** The reading of folded entries that begins with the first free value. */
  ghost predicate AmbiguousFold(f: Folded)
    requires |f.seps| == |f.values|
  {
    f.values != [] && Ambiguous(f.values[0], f.seps[1..], f.values[1..])
  }

  lemma {:induction false} AmbiguousExactly(pre: string, labels: Labels, order: seq<string>, base: set<string>)
    requires forall n :: n in order ==> n in labels
    ensures AmbiguousFold(Fold(pre, order, labels, base)) <==> Crowded(labels, order, base)
    decreases |order|
  {
    if order != [] {
      var n, rest := order[0], order[1..];
      if n in base {
        AmbiguousExactly(pre + Separator(n) + labels[n], labels, rest, base);
        CrowdedFixed(labels, order, base);
      } else {
        var f := Fold("", rest, labels, base);
        AmbiguousAfter(labels[n], "", labels, rest, base);
        CrowdedFree(labels, order, base);
        assert ([pre + Separator(n)] + f.seps)[1..] == f.seps && ([labels[n]] + f.values)[1..] == f.values;
      }
    }
  }

  // ----- collisions ---------------------------------------------------------

  /** Another row with the same names, the same values of the fixed names and the same key. */
  ghost predicate HasTwin(a: Labels, base: set<string>, text: string) {
    exists b: Labels :: IsTwin(a, b, base, text)
  }

  ghost predicate IsTwin(a: Labels, b: Labels, base: set<string>, text: string) {
    b.Keys == a.Keys && SameBase(a, b, base) && b != a && IsKeyText(b, text)
  }

  /** Two rows have one key exactly when the values of their free names make one text. */
  lemma SameKeys(a: Labels, b: Labels, order: seq<string>, base: set<string>, text: string)
    requires order != [] && Enumerates(order, a) && Enumerates(order, b) && InKeyOrder(order) && PlainNames(order)
    requires SameBase(a, b, base) && IsKeyText(a, text)
    ensures var f, g := Fold("", order, a, base), Fold("", order, b, base);
      IsKeyText(b, text) <==> Tail(f.seps, f.values) == Tail(g.seps, g.values)
  {
    var f, g := Fold("", order, a, base), Fold("", order, b, base);
    KeyTextIs(a, order, text);
    KeyTextIs(b, order, text);
    JoinWithComma(Entries(order, a));
    JoinWithComma(Entries(order, b));
    FoldText("", order, a, base);
    FoldText("", order, b, base);
    FoldAgree("", order, a, b, base);
    SameEnds(Join(Entries(order, a), ','), Join(Entries(order, b), ','), Tail(f.seps, f.values), Tail(g.seps, g.values), f.rest);
  }

  lemma JoinWithComma(es: seq<string>)
    requires es != []
    ensures "" + Rest(es) == "," + Join(es, ',')
  {
    JoinIsRest(es);
    Regroup(",", es[0], Rest(es[1..]));
    assert "" + Rest(es) == Rest(es);
  }

  lemma SameEnds(x: string, y: string, u: string, v: string, rest: string)
    requires "," + x == u + rest && "," + y == v + rest
    ensures x == y <==> u == v
  {
    assert ("," + x)[1..] == x && ("," + y)[1..] == y;
    assert (u + rest)[..|u|] == u && (v + rest)[..|v|] == v;
    assert |u + rest| - |rest| == |u| && |v + rest| - |rest| == |v|;
  }

  /** A text in a first value and what follows it. */
  lemma TailFirst(seps: seq<string>, values: seq<string>, values': seq<string>)
    requires |seps| == |values| == |values'| > 0
    ensures Tail(seps, values) == Tail(seps, values')
       <==> values[0] + Tail(seps[1..], values[1..]) == values'[0] + Tail(seps[1..], values'[1..])
  {
    var x, y := values[0] + Tail(seps[1..], values[1..]), values'[0] + Tail(seps[1..], values'[1..]);
    Regroup(seps[0], values[0], Tail(seps[1..], values[1..]));
    Regroup(seps[0], values'[0], Tail(seps[1..], values'[1..]));
    assert (seps[0] + x)[|seps[0]|..] == x && (seps[0] + y)[|seps[0]|..] == y;
  }

  lemma TwinIsAmbiguous(a: Labels, b: Labels, order: seq<string>, base: set<string>, text: string)
    requires order != [] && Enumerates(order, a) && InKeyOrder(order) && PlainNames(order) && IsKeyText(a, text)
    requires IsTwin(a, b, base, text)
    ensures AmbiguousFold(Fold("", order, a, base))
  {
    var f, g := Fold("", order, a, base), Fold("", order, b, base);
    assert forall n :: n in b <==> n in a;
    SameKeys(a, b, order, base, text);
    FoldAgree("", order, a, b, base);
    var n :| n in a && a[n] != b[n];
    OtherValues(f, g);
  }

  lemma OtherValues(f: Folded, g: Folded)
    requires |f.seps| == |f.values| == |g.values| && f.seps == g.seps && f.values != g.values
    requires Tail(f.seps, f.values) == Tail(g.seps, g.values)
    ensures AmbiguousFold(f)
  {
    TailFirst(f.seps, f.values, g.values);
    RestDiffers(f.values, g.values);
    DifferentIsAmbiguous(f.values[0], f.values[1..], g.values[0], g.values[1..], f.seps[1..]);
  }

  lemma AmbiguousHasTwin(a: Labels, order: seq<string>, base: set<string>, text: string)
    requires order != [] && Enumerates(order, a) && InKeyOrder(order) && PlainNames(order) && IsKeyText(a, text)
    requires AmbiguousFold(Fold("", order, a, base))
    ensures HasTwin(a, base, text)
  {
    var f := Fold("", order, a, base);
    var first, rest := AmbiguousHasOther(f.values[0], f.seps[1..], f.values[1..]);
    var values := [first] + rest;
    assert values[1..] == rest && f.values == [f.values[0]] + f.values[1..];
    var b := Refold("", order, a, base, values);
    assert forall n :: n in b <==> n in a;
    FoldAgree("", order, a, b, base);
    TailFirst(f.seps, f.values, values);
    SameKeys(a, b, order, base, text);
    assert IsTwin(a, b, base, text);
  }

  /**
   * A row shares its key with another row of its query, which has the same names
   * and the same values of the names in `base`, exactly when, for two free names with
   * none but names of `base` between them in the key, the text between their values
   * occurs elsewhere in the two values and that text.
   */
  lemma CollidesExactly(a: Labels, order: seq<string>, base: set<string>, text: string)
    requires order != [] && Enumerates(order, a) && InKeyOrder(order) && PlainNames(order) && IsKeyText(a, text)
    ensures HasTwin(a, base, text) <==> Crowded(a, order, base)
  {
    AmbiguousExactly("", a, order, base);
    if b: Labels :| IsTwin(a, b, base, text) {
      TwinIsAmbiguous(a, b, order, base, text);
    }
    if Crowded(a, order, base) {
      AmbiguousHasTwin(a, order, base, text);
    }
  }

  lemma ContainsIn(x: string, part: string, y: string)
    ensures Contains(x + part + y, part)
  {
    var s := x + part + y;
    assert OccursAt(s, part, |x|);
  }

  /** Separators do not overlap, because only their first character is a comma. */
  lemma SeparatorsApart(x: string, y: string, u: string, v: string, sep: string)
    requires |sep| > 0 && sep[0] == ',' && ',' !in sep[1..]
    requires x + sep + u == y + sep + v && |x| < |y|
    ensures |x| + |sep| <= |y|
  {
    var t := x + sep + u;
    assert t[|y|] == ',';
    forall i | |x| < i < |x| + |sep| ensures t[i] != ',' {
      assert t[i] == sep[i - |x|] == sep[1..][i - |x| - 1];
    }
  }

  lemma SeparatorShape(name: string)
    requires ',' !in name
    ensures |Separator(name)| > 0 && Separator(name)[0] == ',' && ',' !in Separator(name)[1..]
  {
    assert Separator(name)[1..] == name + ":";
  }

  /** For neighbours in the key, the text between the values occurs elsewhere exactly when one of the values contains it. */
  lemma NeighboursExactly(labels: Labels, order: seq<string>, base: set<string>, i: nat)
    requires i + 1 < |order| && (forall n :: n in order ==> n in labels) && PlainNames(order)
    requires order[i] !in base && order[i + 1] !in base
    ensures CrowdedPair(labels, order, base, i, i + 1)
       <==> Contains(labels[order[i]], Separator(order[i + 1])) || Contains(labels[order[i + 1]], Separator(order[i + 1]))
  {
    var v, w, sep := labels[order[i]], labels[order[i + 1]], Separator(order[i + 1]);
    assert order[i + 1] in order && order[i + 1..][0] == order[i + 1];
    SeparatorShape(order[i + 1]);
    if k :| OccursAt(v, sep, k) {
      assert (v + sep + w)[k..k + |sep|] == v[k..k + |sep|];
      assert OccursAt(v + sep + w, sep, k);
    }
    if k :| OccursAt(w, sep, k) {
      assert (v + sep + w)[|v| + |sep| + k..|v| + |sep| + k + |sep|] == w[k..k + |sep|];
      assert OccursAt(v + sep + w, sep, |v| + |sep| + k);
    }
    if k :| k != |v| && OccursAt(v + sep + w, sep, k) {
      InOneValue(v, sep, w, k);
    }
  }

  lemma InOneValue(v: string, sep: string, w: string, k: int)
    requires |sep| > 0 && sep[0] == ',' && ',' !in sep[1..] && k != |v| && OccursAt(v + sep + w, sep, k)
    ensures Contains(v, sep) || Contains(w, sep)
  {
    var t := v + sep + w;
    assert t == t[..k] + sep + t[k + |sep|..];
    if k < |v| {
      SeparatorsApart(t[..k], v, t[k + |sep|..], w, sep);
      assert v[k..k + |sep|] == t[k..k + |sep|];
      assert OccursAt(v, sep, k);
    } else {
      SeparatorsApart(v, t[..k], w, t[k + |sep|..], sep);
      var m := k - |v| - |sep|;
      assert w[m..m + |sep|] == t[k..k + |sep|];
      assert OccursAt(w, sep, m);
    }
  }

  // ----- every set of names has a key order ---------------------------------

  /** Adds a name to names in key order. */
  lemma {:induction false} InsertName(order: seq<string>, n: string) returns (out: seq<string>)
    requires InKeyOrder(order)
    ensures InKeyOrder(out) && multiset(out) == multiset(order) + multiset{n}
  {
    if order == [] {
      out := [n];
    } else {
      LeTotal(n + ":", order[0] + ":");
      assert order == [order[0]] + order[1..];
      if Le(n + ":", order[0] + ":") {
        out := [n] + order;
        forall i | 0 <= i < |order| ensures Le(n + ":", order[i] + ":") {
          if i > 0 {
            LeTransitive(n + ":", order[0] + ":", order[i] + ":");
          }
        }
      } else {
        var rest := InsertName(order[1..], n);
        out := [order[0]] + rest;
        forall i | 0 <= i < |rest| ensures Le(order[0] + ":", rest[i] + ":") {
          assert rest[i] in multiset(rest);
          assert rest[i] in order[1..] || rest[i] == n;
        }
      }
    }
  }

  lemma {:induction false} OrderNames(names: seq<string>) returns (order: seq<string>)
    ensures InKeyOrder(order) && multiset(order) == multiset(names)
  {
    order := [];
    if names != [] {
      var rest := OrderNames(names[1..]);
      order := InsertName(rest, names[0]);
      assert names == [names[0]] + names[1..];
    }
  }

  lemma KeyOrderExists(labels: Labels, names: seq<string>) returns (order: seq<string>)
    requires Enumerates(names, labels)
    ensures Enumerates(order, labels) && InKeyOrder(order)
  {
    order := OrderNames(names);
    forall n ensures n in order <==> n in labels {
      assert n in order <==> n in multiset(order);
      assert n in names <==> n in multiset(names);
    }
    forall i, j | 0 <= i < j < |order| ensures order[i] != order[j] {
      OneEach(names, order[i]);
      if order[i] == order[j] {
        TwiceInBag(order, i, j);
      }
    }
  }

  lemma JoinFour(w: string, x: string, y: string, z: string)
    ensures Join([w, x, y, z], ',') == w + ("," + x + ("," + y + ("," + z + "")))
  {
    JoinIsRest([w, x, y, z]);
    assert [w, x, y, z][1..] == [x, y, z] && [x, y, z][1..] == [y, z] && [y, z][1..] == [z] && [z][1..] == [];
    assert Rest([z]) == "," + z + "" && Rest([y, z]) == "," + y + Rest([z]) && Rest([x, y, z]) == "," + x + Rest([y, z]);
  }

  /** Two names `p` and `q` that are neighbours in the key, among four: the text of both keys. */
  lemma NeighboursText(w: string, p: string, q: string, z: string, instance: string, x: string, y: string, t: string,
                       sid: string)
    requires var order := [w, p, q, z]; InKeyOrder(order) && PlainNames(order) && w != p && w != q && w != z && p != q && p != z && q != z
    ensures var a: Labels := map[w := instance, p := x + Separator(q) + y, q := t, z := sid];
      var b: Labels := map[w := instance, p := x, q := y + Separator(q) + t, z := sid];
      var text := w + ":" + instance + ("," + (p + ":" + a[p]) + ("," + (q + ":" + t) + ("," + (z + ":" + sid) + "")));
      a.Keys == b.Keys && a != b && IsKeyText(a, text) && IsKeyText(b, text)
  {
    var a: Labels := map[w := instance, p := x + Separator(q) + y, q := t, z := sid];
    var b: Labels := map[w := instance, p := x, q := y + Separator(q) + t, z := sid];
    var order := [w, p, q, z];
    assert |a[p]| > |b[p]|;
    assert Enumerates(order, a) && Enumerates(order, b);
    FourEntries(w, p, q, z, a);
    FourEntries(w, p, q, z, b);
    MovedSeparator(p + ":", x, q, y, t, "," + (z + ":" + sid) + "");
    KeyTextIs(a, order, Join(Entries(order, a), ','));
    KeyTextIs(b, order, Join(Entries(order, a), ','));
  }

  /** Moving a separator between their values gives other labels with the same key. */
  lemma NeighboursCollide(w: string, p: string, q: string, z: string, instance: string, x: string, y: string, t: string,
                          sid: string)
    requires var order := [w, p, q, z]; InKeyOrder(order) && PlainNames(order) && w != p && w != q && w != z && p != q && p != z && q != z
    ensures var a: Labels := map[w := instance, p := x + Separator(q) + y, q := t, z := sid];
      var b: Labels := map[w := instance, p := x, q := y + Separator(q) + t, z := sid];
      a.Keys == b.Keys && a != b && exists text :: IsKeyText(a, text) && IsKeyText(b, text)
  {
    NeighboursText(w, p, q, z, instance, x, y, t, sid);
  }

  lemma FourEntries(w: string, x: string, y: string, z: string, labels: Labels)
    requires w in labels && x in labels && y in labels && z in labels
    ensures Join(Entries([w, x, y, z], labels), ',')
         == w + ":" + labels[w] + ("," + (x + ":" + labels[x]) + ("," + (y + ":" + labels[y]) + ("," + (z + ":" + labels[z]) + "")))
  {
    assert Entries([w, x, y, z], labels) == [w + ":" + labels[w], x + ":" + labels[x], y + ":" + labels[y], z + ":" + labels[z]];
    JoinFour(w + ":" + labels[w], x + ":" + labels[x], y + ":" + labels[y], z + ":" + labels[z]);
  }

  lemma MovedSeparator(head: string, x: string, q: string, y: string, t: string, rest: string)
    ensures "," + (head + (x + Separator(q) + y)) + ("," + (q + ":" + t) + rest)
         == "," + (head + x) + ("," + (q + ":" + (y + Separator(q) + t)) + rest)
  {
  }

  lemma LeByFirst(a: string, b: string)
    requires a != [] && b != [] && a[0] < b[0]
    ensures Le(a, b)
  {
  }

  /** Two rows of one query whose series have the same key. */
  lemma RowsCollide(instance: string, sid: string)
    ensures var a: Labels := map["instance_name" := instance, "p" := "1,q:2", "q" := "3", "sid" := sid];
      var b: Labels := map["instance_name" := instance, "p" := "1", "q" := "2,q:3", "sid" := sid];
      a.Keys == b.Keys && a != b && exists text :: IsKeyText(a, text) && IsKeyText(b, text)
  {
    NamesInOrder();
    NeighboursCollide("instance_name", "p", "q", "sid", instance, "1", "2", "3", sid);
    assert "1" + Separator("q") + "2" == "1,q:2" && "2" + Separator("q") + "3" == "2,q:3";
  }

  lemma NamesInOrder()
    ensures InKeyOrder(["instance_name", "p", "q", "sid"]) && PlainNames(["instance_name", "p", "q", "sid"])
  {
    var w, p, q, z := "instance_name", "p", "q", "sid";
    LeByFirst(w + ":", p + ":");
    LeByFirst(w + ":", q + ":");
    LeByFirst(w + ":", z + ":");
    LeByFirst(p + ":", q + ":");
    LeByFirst(p + ":", z + ":");
    LeByFirst(q + ":", z + ":");
  }
}

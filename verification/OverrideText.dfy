/**
 * What a line of an override file means, told from its text
 * (internal/workloadmanager/workloadcollector.go, internal/metricoverrides/metricoverrides.go).
 */
module OverrideText {
  import opened Common
  import opened Text
  import opened OverrideFile

  ghost predicate Blank(s: string) {
    forall c :: c in s ==> IsSpace(c)
  }

  lemma SomeSpaces()
    ensures IsSpace(' ') && IsSpace('\t') && IsSpace('\r') && !IsSpace(':') && !IsSpace('#')
  {
  }

  // ----- trimming -----------------------------------------------------------

  lemma {:induction false} TrimLeftDrops(l: string, s: string)
    requires Blank(l) && (s == "" || !IsSpace(s[0]))
    ensures TrimLeft(l + s) == s
  {
    if l == "" {
      assert l + s == s;
    } else {
      assert l[0] in l && (l + s)[1..] == l[1..] + s;
      TrimLeftDrops(l[1..], s);
    }
  }

  lemma {:induction false} TrimRightDrops(s: string, r: string)
    requires Blank(r) && (s == "" || !IsSpace(s[|s| - 1]))
    ensures TrimRight(s + r) == s
  {
    if r == "" {
      assert s + r == s;
    } else {
      assert r[|r| - 1] in r && (s + r)[..|s + r| - 1] == s + r[..|r| - 1];
      TrimRightDrops(s, r[..|r| - 1]);
    }
  }

  /** White space around a trimmed string is removed, and nothing else. */
  lemma TrimDrops(l: string, s: string, r: string)
    requires Blank(l) && Blank(r) && Trimmed(s)
    ensures TrimSpace(l + s + r) == s
  {
    assert l + s + r == l + (s + r);
    if s == "" {
      assert Blank(l + (s + r)) && l + (s + r) == (l + (s + r)) + "";
      TrimLeftDrops(l + (s + r), "");
    } else {
      TrimLeftDrops(l, s + r);
      TrimRightDrops(s, r);
    }
  }

  /** Every string is a trimmed one with white space around it. */
  lemma TrimSplits(s: string) returns (l: string, t: string, r: string)
    ensures s == l + t + r && Blank(l) && Blank(r) && Trimmed(t)
  {
    l, t := SplitLeft(s);
    t, r := SplitRight(t);
  }

  lemma {:induction false} SplitLeft(s: string) returns (l: string, t: string)
    ensures s == l + t && Blank(l) && (t == "" || !IsSpace(t[0]))
  {
    if s == "" || !IsSpace(s[0]) {
      l, t := "", s;
      assert s == "" + s;
    } else {
      l, t := SplitLeft(s[1..]);
      assert s == [s[0]] + s[1..] == ([s[0]] + l) + t;
      l := [s[0]] + l;
    }
  }

  lemma {:induction false} SplitRight(s: string) returns (t: string, r: string)
    requires s == "" || !IsSpace(s[0])
    ensures s == t + r && Blank(r) && Trimmed(t)
  {
    if s == "" || !IsSpace(s[|s| - 1]) {
      t, r := s, "";
      assert s == s + "";
    } else {
      t, r := SplitRight(s[..|s| - 1]);
      assert s == s[..|s| - 1] + [s[|s| - 1]] == t + (r + [s[|s| - 1]]);
      r := r + [s[|s| - 1]];
    }
  }

  // ----- lines --------------------------------------------------------------

  lemma {:induction false} CutAt(x: string, y: string)
    requires ':' !in x
    ensures Cut(x + ":" + y, ':') == Some((x, y))
  {
    if x == "" {
      assert x + ":" + y == ":" + y && (":" + y)[1..] == y;
    } else {
      assert x[0] in x && (x + ":" + y)[1..] == x[1..] + ":" + y;
      CutAt(x[1..], y);
      assert [x[0]] + x[1..] == x;
    }
  }

  lemma {:induction false} CutNone(x: string)
    requires ':' !in x
    ensures Cut(x, ':') == None
  {
    if x != "" {
      CutNone(x[1..]);
      assert x[0] in x;
    }
  }

  /** A line with a key, a colon and a value, each with white space around it. */
  function Line(l: string, k: string, a: string, b: string, v: string, r: string): string {
    l + k + a + ":" + (b + v + r)
  }

  /**
   * A line of the form "key: value" with the key "metric" begins a metric, with any
   * other key it says something about one. The value may contain colons.
   */
  lemma LineMeans(l: string, k: string, a: string, b: string, v: string, r: string)
    requires Blank(l) && Blank(a) && Blank(b) && Blank(r) && Trimmed(k) && Trimmed(v) && ':' !in k
    requires (l + k + a) == "" || (l + k + a)[0] != '#'
    ensures LineOf(Line(l, k, a, b, v, r)) == if k == "metric" then Metric(v) else About(k, v)
  {
    var x, y := l + k + a, b + v + r;
    SomeSpaces();
    assert ':' !in x;
    CutAt(x, y);
    TrimDrops(l, k, a);
    TrimDrops(b, v, r);
    assert (x + ":" + y)[0] == if x == "" then ':' else x[0];
  }

  /** Empty lines, comments and lines without a colon mean nothing. */
  lemma LineIsIgnored(text: string)
    ensures LineOf(text) == Ignored <==> text == "" || text[0] == '#' || ':' !in text
  {
    if ':' !in text {
      CutNone(text);
    } else if text != "" && text[0] != '#' {
      var l, k, a, b, v, r := LineSplits(text);
      LineMeans(l, k, a, b, v, r);
    }
  }

  /** Every other line is of the form "key: value". */
  lemma LineSplits(text: string) returns (l: string, k: string, a: string, b: string, v: string, r: string)
    requires ':' in text && text[0] != '#'
    ensures text == Line(l, k, a, b, v, r)
    ensures Blank(l) && Blank(a) && Blank(b) && Blank(r) && Trimmed(k) && Trimmed(v) && ':' !in k
    ensures (l + k + a) == "" || (l + k + a)[0] != '#'
  {
    var i := FirstColon(text);
    var x, y := text[..i], text[i + 1..];
    assert text == x + ":" + y;
    l, k, a := TrimSplits(x);
    b, v, r := TrimSplits(y);
    assert forall c :: c in k ==> c in x;
  }

  lemma {:induction false} FirstColon(text: string) returns (i: nat)
    requires ':' in text
    ensures i < |text| && text[i] == ':' && ':' !in text[..i]
  {
    if text[0] == ':' {
      i := 0;
    } else {
      assert text == [text[0]] + text[1..];
      i := FirstColon(text[1..]);
      i := i + 1;
      assert text[..i] == [text[0]] + text[1..][..i - 1];
    }
  }

  // ----- names --------------------------------------------------------------

  lemma {:induction false} NamesSnoc(lines: seq<OverrideFile.Line>, line: OverrideFile.Line, from: nat)
    requires from <= |lines|
    ensures Names(lines + [line], from) == Names(lines, from) + if NameOf(line) != "" then [NameOf(line)] else []
    decreases |lines| - from
  {
    if from < |lines| {
      NamesSnoc(lines, line, from + 1);
    }
  }

  /**
   * The names that the readers of a file give: every line "metric: name" with a name
   * adds it, in order, and no other line adds any.
   */
  lemma NamesOfText(file: seq<string>, text: string)
    ensures Names(Parsed([]), 0) == []
    ensures text == "" || text[0] == '#' || ':' !in text ==> Names(Parsed(file + [text]), 0) == Names(Parsed(file), 0)
    ensures forall l, k, a, b, v, r ::
      text == Line(l, k, a, b, v, r) && Blank(l) && Blank(a) && Blank(b) && Blank(r) && Trimmed(k) && Trimmed(v) && ':' !in k
      && ((l + k + a) == "" || (l + k + a)[0] != '#') ==>
        Names(Parsed(file + [text]), 0) == Names(Parsed(file), 0) + if k == "metric" && v != "" then [v] else []
  {
    assert Parsed(file + [text]) == Parsed(file) + [LineOf(text)];
    NamesSnoc(Parsed(file), LineOf(text), 0);
    LineIsIgnored(text);
    forall l, k, a, b, v, r |
      text == Line(l, k, a, b, v, r) && Blank(l) && Blank(a) && Blank(b) && Blank(r) && Trimmed(k) && Trimmed(v) && ':' !in k
      && ((l + k + a) == "" || (l + k + a)[0] != '#')
      ensures LineOf(text) == if k == "metric" then Metric(v) else About(k, v)
    {
      LineMeans(l, k, a, b, v, r);
    }
  }
}

/**
 * Metric override files: lines of the form "key: value", in which a line with
 * the key "metric" begins a metric
 * (internal/workloadmanager/workloadcollector.go, internal/metricoverrides/metricoverrides.go).
 */
module OverrideFile {
  import opened Common
  import opened Text

  /** A floating-point number, with the values that are no real numbers. */
  datatype Float = Finite(r: real) | PositiveInfinity | NegativeInfinity | NotANumber

  datatype Entry = Entry(key: string, value: string)

  /** The text before and after the first separator, if there is one. */
  function Cut(s: string, sep: char): Option<(string, string)> {
    if s == [] then None
    else if s[0] == sep then Some(("", s[1..]))
    else
      var rest := Cut(s[1..], sep);
      if rest.None? then None else Some(([s[0]] + rest.value.0, rest.value.1))
  }

  /** The key and the value of a line. Empty lines, comments and lines without a colon have none. */
  function ParseScannedText(text: string): Option<Entry> {
    if text == "" || text[0] == '#' then None
    else
      var parts := Cut(text, ':');
      if parts.None? then None else Some(Entry(TrimSpace(parts.value.0), TrimSpace(parts.value.1)))
  }

  /** What a line is for: nothing, the name of a metric, or something about a metric. */
  datatype Line = Ignored | Metric(name: string) | About(key: string, value: string)

  function LineOf(text: string): Line {
    var e := ParseScannedText(text);
    if e.None? then Ignored
    else if e.value.key == "metric" then Metric(e.value.value)
    else About(e.value.key, e.value.value)
  }

  function Parsed(file: seq<string>): (lines: seq<Line>)
    ensures |lines| == |file| && forall i :: 0 <= i < |file| ==> lines[i] == LineOf(file[i])
  {
    seq(|file|, i requires 0 <= i < |file| => LineOf(file[i]))
  }

  /** The name that a line gives, empty if it gives none. */
  function NameOf(line: Line): string {
    if line.Metric? then line.name else ""
  }

  // ----- blocks -------------------------------------------------------------

  /** The first metric line from a place on, or the end of the file. */
  ghost function FirstMetric(lines: seq<Line>, from: nat): (i: nat)
    requires from <= |lines|
    ensures from <= i <= |lines|
    decreases |lines| - from
  {
    if from == |lines| || lines[from].Metric? then from else FirstMetric(lines, from + 1)
  }

  /** The first metric line with a name from a place on, or the end of the file. */
  ghost function FirstNamed(lines: seq<Line>, from: nat): (i: nat)
    requires from <= |lines|
    ensures from <= i <= |lines|
    decreases |lines| - from
  {
    if from == |lines| || NameOf(lines[from]) != "" then from else FirstNamed(lines, from + 1)
  }

  lemma {:induction false} FirstMetricIs(lines: seq<Line>, from: nat)
    requires from <= |lines|
    ensures var i := FirstMetric(lines, from);
      (i < |lines| ==> lines[i].Metric?) && forall j :: from <= j < i ==> !lines[j].Metric?
    decreases |lines| - from
  {
    if from < |lines| && !lines[from].Metric? {
      FirstMetricIs(lines, from + 1);
    }
  }

  lemma {:induction false} FirstNamedIs(lines: seq<Line>, from: nat)
    requires from <= |lines|
    ensures var i := FirstNamed(lines, from);
      (i < |lines| ==> NameOf(lines[i]) != "") && forall j :: from <= j < i ==> NameOf(lines[j]) == ""
    decreases |lines| - from
  {
    if from < |lines| && NameOf(lines[from]) == "" {
      FirstNamedIs(lines, from + 1);
    }
  }

  /** A metric: the line that names it, and the range of the lines that describe it. */
  datatype Block = Block(start: nat, named: nat, end: nat)

  /**
   * The blocks of the lines from `start` on, when the search for the next name
   * begins at `from`. A block ends at the next metric line after its name; that
   * line may name the next block. Lines before the name belong to the block.
   */
  ghost function Blocks(lines: seq<Line>, start: nat, from: nat): seq<Block>
    requires from <= |lines|
    decreases |lines| - from
  {
    var named := FirstNamed(lines, from);
    if named == |lines| then []
    else
      var end := FirstMetric(lines, named + 1);
      [Block(start, named, end)] + Blocks(lines, end + 1, end)
  }

  /** The names that the lines from a place on give, in order. */
  function Names(lines: seq<Line>, from: nat): seq<string>
    requires from <= |lines|
    decreases |lines| - from
  {
    if from == |lines| then []
    else (if NameOf(lines[from]) != "" then [NameOf(lines[from])] else []) + Names(lines, from + 1)
  }

  /** The names of blocks. */
  ghost function BlockNames(lines: seq<Line>, bs: seq<Block>): (names: seq<string>)
    ensures |names| == |bs|
  {
    seq(|bs|, i requires 0 <= i < |bs| => if bs[i].named < |lines| then NameOf(lines[bs[i].named]) else "")
  }

  lemma {:induction false} NoNames(lines: seq<Line>, i: nat, j: nat)
    requires i <= j <= |lines| && forall k :: i <= k < j ==> NameOf(lines[k]) == ""
    ensures Names(lines, i) == Names(lines, j)
    decreases j - i
  {
    if i < j {
      assert NameOf(lines[i]) == "";
      assert Names(lines, i) == [] + Names(lines, i + 1) == Names(lines, i + 1);
      NoNames(lines, i + 1, j);
    }
  }

  /** Between `from` and `end`, only line `named` gives a name. */
  ghost predicate Separates(lines: seq<Line>, from: nat, named: nat, end: nat) {
    && from <= named < end <= |lines| && NameOf(lines[named]) != ""
    && forall k :: from <= k < end && k != named ==> NameOf(lines[k]) == ""
  }

  lemma NamesOfBlock(lines: seq<Line>, from: nat, named: nat, end: nat)
    requires Separates(lines, from, named, end)
    ensures Names(lines, from) == [NameOf(lines[named])] + Names(lines, end)
  {
    NoNames(lines, from, named);
    NoNames(lines, named + 1, end);
  }

  /** The first block, and those after it. */
  lemma BlocksStep(lines: seq<Line>, start: nat, from: nat) returns (b: Block, rest: seq<Block>)
    requires from <= |lines| && FirstNamed(lines, from) < |lines|
    ensures b == Block(start, FirstNamed(lines, from), FirstMetric(lines, FirstNamed(lines, from) + 1))
    ensures b.start == start && from <= b.named < b.end <= |lines|
    ensures Separates(lines, from, b.named, b.end)
    ensures forall k :: b.named < k < b.end ==> !lines[k].Metric?
    ensures (b.end < |lines| ==> lines[b.end].Metric?) && rest == Blocks(lines, b.end + 1, b.end)
    ensures Blocks(lines, start, from) == [b] + rest
  {
    FirstNamedIs(lines, from);
    FirstMetricIs(lines, FirstNamed(lines, from) + 1);
    b := Block(start, FirstNamed(lines, from), FirstMetric(lines, FirstNamed(lines, from) + 1));
    rest := Blocks(lines, b.end + 1, b.end);
  }

  /** Every line with a name makes a block, in order, and nothing else does. */
  lemma {:induction false} BlocksAreNamed(lines: seq<Line>, start: nat, from: nat)
    requires from <= |lines|
    ensures BlockNames(lines, Blocks(lines, start, from)) == Names(lines, from)
    decreases |lines| - from
  {
    if FirstNamed(lines, from) == |lines| {
      NoBlocks(lines, start, from);
    } else {
      var b, rest := BlocksStep(lines, start, from);
      BlocksAreNamed(lines, b.end + 1, b.end);
      NamesStep(lines, from, b, rest);
    }
  }

  lemma NoBlocks(lines: seq<Line>, start: nat, from: nat)
    requires from <= |lines| && FirstNamed(lines, from) == |lines|
    ensures Blocks(lines, start, from) == [] && BlockNames(lines, []) == Names(lines, from)
  {
    FirstNamedIs(lines, from);
    NoNames(lines, from, |lines|);
  }

  lemma NamesStep(lines: seq<Line>, from: nat, b: Block, rest: seq<Block>)
    requires Separates(lines, from, b.named, b.end) && BlockNames(lines, rest) == Names(lines, b.end)
    ensures BlockNames(lines, [b] + rest) == Names(lines, from)
  {
    NamesOfBlock(lines, from, b.named, b.end);
  }

  predicate InBlock(b: Block, j: nat) {
    b.start <= j < b.end
  }

  /** Blocks come one after the other and do not overlap, and each contains its name or starts right after it. */
  ghost predicate Apart(bs: seq<Block>, start: nat, n: nat) {
    && (forall i :: 0 <= i < |bs| ==> start <= bs[i].start <= bs[i].named + 1 <= bs[i].end <= n)
    && (forall i, j :: 0 <= i < j < |bs| ==> bs[i].end < bs[j].start)
  }

  lemma {:induction false} BlocksAreApart(lines: seq<Line>, start: nat, from: nat)
    requires from <= |lines| && start <= from + 1
    ensures Apart(Blocks(lines, start, from), start, |lines|)
    decreases |lines| - from
  {
    if FirstNamed(lines, from) == |lines| {
      assert Blocks(lines, start, from) == [];
    } else {
      var b, rest := BlocksStep(lines, start, from);
      BlocksAreApart(lines, b.end + 1, b.end);
      ApartCons(b, rest, start, |lines|);
    }
  }

  lemma ApartCons(b: Block, rest: seq<Block>, start: nat, n: nat)
    requires start <= b.start <= b.named + 1 <= b.end <= n && Apart(rest, b.end + 1, n)
    ensures Apart([b] + rest, start, n)
  {
    var bs := [b] + rest;
    assert forall i :: 0 < i < |bs| ==> bs[i] == rest[i - 1];
  }

  ghost predicate InSome(bs: seq<Block>, j: nat) {
    exists i :: 0 <= i < |bs| && InBlock(bs[i], j)
  }

  lemma InSomeCons(b: Block, rest: seq<Block>, j: nat)
    ensures InSome([b] + rest, j) <==> InBlock(b, j) || InSome(rest, j)
  {
    var bs := [b] + rest;
    if InBlock(b, j) {
      assert InBlock(bs[0], j);
    }
    if i :| 0 <= i < |rest| && InBlock(rest[i], j) {
      assert InBlock(bs[i + 1], j);
    }
  }

  /** A name comes after line `j`, not before line `from`. */
  ghost predicate NameAfter(lines: seq<Line>, from: nat, j: nat) {
    exists i :: j < i < |lines| && from <= i && NameOf(lines[i]) != ""
  }

  /** A name comes after line `j`, or the last metric line before it gives one. */
  ghost predicate Claimed(lines: seq<Line>, from: nat, j: nat)
    requires j <= |lines|
  {
    NameAfter(lines, from, j) || UnderName(lines, from, j)
  }

  /** The last metric line before line `j` gives a name. */
  ghost predicate UnderName(lines: seq<Line>, from: nat, j: nat)
    requires j <= |lines|
  {
    exists i :: from <= i < j && LastMetric(lines, i, j) && NameOf(lines[i]) != ""
  }

  ghost predicate LastMetric(lines: seq<Line>, i: nat, j: nat)
    requires i < j <= |lines|
  {
    lines[i].Metric? && forall k :: i < k < j ==> !lines[k].Metric?
  }

  /**
   * A line that is no metric line is in some block exactly when a name comes
   * after it or the last metric line before it gives one. So the lines in no block
   * are those that follow a metric line without a name, or no metric line, with no name after them.
   */
  lemma {:induction false} InBlockExactly(lines: seq<Line>, start: nat, from: nat, j: nat)
    requires from <= |lines| && start <= from + 1 && start <= j < |lines| && !lines[j].Metric?
    ensures InSome(Blocks(lines, start, from), j) <==> Claimed(lines, from, j)
    decreases |lines| - from
  {
    if FirstNamed(lines, from) == |lines| {
      InNoBlock(lines, start, from, j);
    } else {
      InBlockNext(lines, start, from, j);
    }
  }

  lemma {:induction false} InBlockNext(lines: seq<Line>, start: nat, from: nat, j: nat)
    requires from <= |lines| && start <= from + 1 && start <= j < |lines| && !lines[j].Metric?
    requires FirstNamed(lines, from) < |lines|
    ensures InSome(Blocks(lines, start, from), j) <==> Claimed(lines, from, j)
    decreases |lines| - from, 0
  {
    var b, rest := BlocksStep(lines, start, from);
    if j < b.end {
      InFirstBlock(lines, from, b, rest, j);
    } else {
      InBlockExactly(lines, b.end + 1, b.end, j);
      InLaterBlock(lines, from, b, rest, j);
    }
  }

  lemma InNoBlock(lines: seq<Line>, start: nat, from: nat, j: nat)
    requires from <= |lines| && j < |lines| && FirstNamed(lines, from) == |lines|
    ensures Blocks(lines, start, from) == [] && !Claimed(lines, from, j)
  {
    FirstNamedIs(lines, from);
  }

  lemma InFirstBlock(lines: seq<Line>, from: nat, b: Block, rest: seq<Block>, j: nat)
    requires Separates(lines, from, b.named, b.end) && b.start <= j < b.end && !lines[j].Metric?
    requires forall k :: b.named < k < b.end ==> !lines[k].Metric?
    ensures InSome([b] + rest, j) && Claimed(lines, from, j)
  {
    InSomeCons(b, rest, j);
    if b.named < j {
      assert LastMetric(lines, b.named, j);
    }
  }

  lemma InLaterBlock(lines: seq<Line>, from: nat, b: Block, rest: seq<Block>, j: nat)
    requires from <= b.end < j < |lines| && lines[b.end].Metric?
    ensures InSome([b] + rest, j) <==> InSome(rest, j)
    ensures Claimed(lines, from, j) <==> Claimed(lines, b.end, j)
  {
    InSomeCons(b, rest, j);
    UnderLater(lines, from, b.end, j);
  }

  /** A metric line in between hides the names before it. */
  lemma UnderLater(lines: seq<Line>, from: nat, end: nat, j: nat)
    requires from <= end < j <= |lines| && lines[end].Metric?
    ensures UnderName(lines, from, j) <==> UnderName(lines, end, j)
  {
    if i: nat :| from <= i < j && LastMetric(lines, i, j) && NameOf(lines[i]) != "" {
      assert end <= i;
    }
  }

  // ----- reading block by block ---------------------------------------------

  /**
   * What a reader knows before line `pos`: it has no name yet, because there was
   * none since `from`, or it has the first name since `from` and met no metric line after it.
   */
  ghost predicate Reading(lines: seq<Line>, from: nat, name: string, named: nat, pos: nat) {
    && from <= |lines| && pos <= |lines| && from <= pos
    && if name == "" then forall k :: from <= k < pos ==> NameOf(lines[k]) == ""
       else && from <= named < pos && NameOf(lines[named]) == name
            && (forall k :: from <= k < named ==> NameOf(lines[k]) == "")
            && (forall k :: named < k < pos ==> !lines[k].Metric?)
  }

  lemma {:induction false} FirstNamedAt(lines: seq<Line>, from: nat, named: nat)
    requires from <= named <= |lines| && forall k :: from <= k < named ==> NameOf(lines[k]) == ""
    requires named < |lines| ==> NameOf(lines[named]) != ""
    ensures FirstNamed(lines, from) == named
    decreases named - from
  {
    if from < named {
      FirstNamedAt(lines, from + 1, named);
    }
  }

  lemma {:induction false} FirstMetricAt(lines: seq<Line>, from: nat, end: nat)
    requires from <= end <= |lines| && forall k :: from <= k < end ==> !lines[k].Metric?
    requires end < |lines| ==> lines[end].Metric?
    ensures FirstMetric(lines, from) == end
    decreases end - from
  {
    if from < end {
      FirstMetricAt(lines, from + 1, end);
    }
  }

  /** At a metric line after the name, the first block ends, and the search for the next name begins there. */
  lemma BlockEnds(lines: seq<Line>, start: nat, from: nat, name: string, named: nat, end: nat)
    requires Reading(lines, from, name, named, end) && name != "" && (end < |lines| ==> lines[end].Metric?)
    ensures Blocks(lines, start, from) == [Block(start, named, end)] + Blocks(lines, end + 1, end)
  {
    FirstNamedAt(lines, from, named);
    FirstMetricAt(lines, named + 1, end);
  }

  /** A metric line without a name does not begin a block. */
  lemma NamelessLine(lines: seq<Line>, start: nat, from: nat)
    requires from < |lines| && NameOf(lines[from]) == ""
    ensures Blocks(lines, start, from) == Blocks(lines, start, from + 1)
  {
  }

  lemma FileEnds(lines: seq<Line>, start: nat, from: nat)
    requires from <= |lines| && forall k :: from <= k < |lines| ==> NameOf(lines[k]) == ""
    ensures Blocks(lines, start, from) == []
  {
    FirstNamedAt(lines, from, |lines|);
  }

  lemma LastBlock(lines: seq<Line>, start: nat, from: nat, name: string, named: nat)
    requires Reading(lines, from, name, named, |lines|) && name != ""
    ensures Blocks(lines, start, from) == [Block(start, named, |lines|)]
  {
    BlockEnds(lines, start, from, name, named, |lines|);
    FileEnds(lines, |lines| + 1, |lines|);
  }

  /** One more line: a metric line gives the name if there is none yet, any other line changes nothing. */
  lemma ReadingOn(lines: seq<Line>, from: nat, name: string, named: nat, pos: nat)
    requires Reading(lines, from, name, named, pos) && pos < |lines|
    ensures !lines[pos].Metric? ==> Reading(lines, from, name, named, pos + 1)
    ensures lines[pos].Metric? && name == "" ==> Reading(lines, from, lines[pos].name, pos, pos + 1)
  {
  }

  /** What is left to read after `pos` lines, when the last of them gave the name `pending` or nothing. */
  ghost function Left(lines: seq<Line>, pos: nat, pending: string): seq<Block>
    requires Pending(lines, pos, pending)
  {
    Blocks(lines, pos, if pending != "" then pos - 1 else pos)
  }

  ghost predicate Pending(lines: seq<Line>, pos: nat, pending: string) {
    pos <= |lines| && (pending != "" ==> pos > 0 && lines[pos - 1] == Metric(pending))
  }

  lemma LeftAfterBlock(lines: seq<Line>, start: nat, from: nat, name: string, named: nat, end: nat)
    requires Reading(lines, from, name, named, end) && name != "" && end < |lines| && lines[end].Metric?
    ensures Pending(lines, end + 1, lines[end].name)
    ensures Blocks(lines, start, from) == [Block(start, named, end)] + Left(lines, end + 1, lines[end].name)
  {
    BlockEnds(lines, start, from, name, named, end);
    if lines[end].name == "" {
      NamelessLine(lines, end + 1, end);
    }
  }

  // ----- what a block says --------------------------------------------------

  /** The labels that lines give: the last value of every key that has no meaning of its own. */
  function Labels(lines: seq<Line>, special: set<string>): map<string, string> {
    if lines == [] then map[]
    else
      var labels, last := Labels(lines[..|lines| - 1], special), lines[|lines| - 1];
      if last.About? && last.key !in special then labels[last.key := TrimSpace(last.value)] else labels
  }

  lemma {:induction false} LastOfKey(lines: seq<Line>, special: set<string>, i: nat)
    requires i < |lines| && lines[i].About? && lines[i].key !in special
    requires forall j :: i < j < |lines| && lines[j].About? ==> lines[j].key != lines[i].key
    ensures lines[i].key in Labels(lines, special) && Labels(lines, special)[lines[i].key] == TrimSpace(lines[i].value)
  {
    if i < |lines| - 1 {
      LastOfKey(lines[..|lines| - 1], special, i);
    }
  }

  /** A label has the value of the last line with its key; trimming the value once more changes nothing. */
  lemma LastLabelWins(file: seq<string>, special: set<string>, i: nat)
    requires i < |file| && LineOf(file[i]).About? && LineOf(file[i]).key !in special
    requires forall j :: i < j < |file| && LineOf(file[j]).About? ==> LineOf(file[j]).key != LineOf(file[i]).key
    ensures var l, labels := LineOf(file[i]), Labels(Parsed(file), special); l.key in labels && labels[l.key] == l.value
  {
    LastOfKey(Parsed(file), special, i);
    ValueIsTrimmed(file[i]);
  }

  lemma ValueIsTrimmed(text: string)
    requires LineOf(text).About?
    ensures TrimSpace(LineOf(text).value) == LineOf(text).value
  {
    TrimIsTrimmed(Cut(text, ':').value.1);
    TrimmedStays(LineOf(text).value);
  }

  // ----- the reader ---------------------------------------------------------

  /** What lines say, line by line. A metric line says nothing but its name. */
  function DataOf<D>(lines: seq<Line>, none: D, step: (D, Line) -> D): D {
    if lines == [] then none
    else
      var data, last := DataOf(lines[..|lines| - 1], none, step), lines[|lines| - 1];
      if last.Metric? then data else step(data, last)
  }

  /** A metric as a reader gives it: the name, and what the lines about it say. */
  datatype MetricData<D> = MetricData(name: string, data: D)

  /** A metric has the name of its block, and says what the lines of the block say. */
  ghost predicate Tells<D>(m: MetricData<D>, lines: seq<Line>, b: Block, none: D, step: (D, Line) -> D) {
    && b.start <= b.end <= |lines| && b.named < |lines|
    && m.name == NameOf(lines[b.named])
    && m.data == DataOf(lines[b.start..b.end], none, step)
  }

  lemma DataMore<D>(lines: seq<Line>, start: nat, pos: nat, none: D, step: (D, Line) -> D)
    requires start <= pos < |lines|
    ensures var data := DataOf(lines[start..pos], none, step);
      DataOf(lines[start..pos + 1], none, step) == if lines[pos].Metric? then data else step(data, lines[pos])
  {
    assert lines[start..pos + 1][..pos - start] == lines[start..pos];
  }

  class MetricEmitter<D> {
    /** The lines of the file, each as it is parsed once it is scanned. */
    const lines: seq<Line>
    /** What is known before any line, and how a line that does not begin a metric adds to it. */
    const none: D
    const step: (D, Line) -> D
    /** The number of lines scanned. */
    var pos: nat
    /** The name given by the line that ended the last metric. */
    var tmpMetricName: string

    ghost predicate Valid()
      reads this
    {
      Pending(lines, pos, tmpMetricName)
    }

    /** The blocks still to be read. */
    ghost function Remaining(): seq<Block>
      reads this
      requires Valid()
    {
      Left(lines, pos, tmpMetricName)
    }

    constructor (lines: seq<Line>, none: D, step: (D, Line) -> D)
      ensures this.lines == lines && this.none == none && this.step == step && pos == 0
      ensures Valid() && Remaining() == Blocks(lines, 0, 0)
    {
      this.lines, this.none, this.step, pos, tmpMetricName := lines, none, step, 0, "";
    }

    /**
     * Scans lines up to the metric line that ends the metric, or to the end of
     * the file. Gives the name, what the lines say, and whether there was such a line.
     */
    method Scan(ghost from: nat) returns (metricName: string, data: D, closed: bool, ghost named: nat)
      requires Valid() && from == if tmpMetricName != "" then pos - 1 else pos
      modifies this`pos
      ensures old(pos) <= pos <= |lines|
      ensures if closed then pos > old(pos) && lines[pos - 1].Metric? && metricName != "" else pos == |lines|
      ensures var end := if closed then pos - 1 else pos;
        Reading(lines, from, metricName, named, end) && data == DataOf(lines[old(pos)..end], none, step)
    {
      ghost var start := pos;
      metricName, data, named := tmpMetricName, none, from;
      assert lines[start..start] == [];
      while pos < |lines|
        invariant start <= pos <= |lines|
        invariant Reading(lines, from, metricName, named, pos)
        invariant data == DataOf(lines[start..pos], none, step)
      {
        var line := lines[pos];
        DataMore(lines, start, pos, none, step);
        ReadingOn(lines, from, metricName, named, pos);
        pos := pos + 1;
        if line.Metric? {
          if metricName != "" {
            closed := true;
            return;
          }
          metricName, named := line.name, pos - 1;
        } else {
          data := step(data, line);
        }
      }
      closed := false;
    }

    /**
     * Reads the next block, up to the metric line that ends it. A last call reads
     * to the end of the file and gives a metric without a name if no block is left.
     */
    method GetMetric() returns (m: MetricData<D>, last: bool, ghost b: Block)
      requires Valid()
      modifies this
      ensures !last ==> Valid() && m.name != "" && old(pos) < pos
      ensures IsNext(m, b, old(Remaining()), if last then [] else Remaining(), lines, none, step)
    {
      ghost var start, from, named := pos, if tmpMetricName != "" then pos - 1 else pos, 0;
      var metricName, data, closed;
      metricName, data, closed, named := Scan(from);
      m, last := MetricData(metricName, data), !closed;
      b := Block(start, named, if closed then pos - 1 else pos);
      BlockRead(lines, start, from, m, named, closed, pos, none, step);
      if closed {
        tmpMetricName := lines[pos - 1].name;
      }
    }
  }

  /** A metric is what the next block `b` says, before `rest`; without a name it means that no block was left. */
  ghost predicate IsNext<D>(m: MetricData<D>, b: Block, left: seq<Block>, rest: seq<Block>, lines: seq<Line>, none: D,
                            step: (D, Line) -> D) {
    if m.name == "" then left == [] else left == [b] + rest && Tells(m, lines, b, none, step)
  }

  /** What is left after lines up to `pos` were read, the last of them the metric line that ends the block, if there is one. */
  lemma BlockRead<D>(lines: seq<Line>, start: nat, from: nat, m: MetricData<D>, named: nat, closed: bool, pos: nat,
                     none: D, step: (D, Line) -> D)
    requires if closed then 0 < pos <= |lines| && lines[pos - 1].Metric? && m.name != "" else pos == |lines|
    requires var end := if closed then pos - 1 else pos;
      Reading(lines, from, m.name, named, end) && start <= end && m.data == DataOf(lines[start..end], none, step)
    ensures closed ==> Pending(lines, pos, lines[pos - 1].name)
    ensures var end, rest := if closed then pos - 1 else pos, if closed then Left(lines, pos, lines[pos - 1].name) else [];
      IsNext(m, Block(start, named, end), Blocks(lines, start, from), rest, lines, none, step)
  {
    if closed {
      LeftAfterBlock(lines, start, from, m.name, named, pos - 1);
    } else if m.name == "" {
      FileEnds(lines, start, from);
    } else {
      LastBlock(lines, start, from, m.name, named);
    }
  }

  ghost predicate AllTell<D>(ms: seq<MetricData<D>>, lines: seq<Line>, bs: seq<Block>, none: D, step: (D, Line) -> D) {
    |ms| == |bs| && forall i :: 0 <= i < |ms| ==> Tells(ms[i], lines, bs[i], none, step)
  }

  method CollectLines<D>(lines: seq<Line>, none: D, step: (D, Line) -> D) returns (wm: seq<MetricData<D>>)
    ensures AllTell(wm, lines, Blocks(lines, 0, 0), none, step)
  {
    wm := [];
    var emitter := new MetricEmitter<D>(lines, none, step);
    ghost var done: seq<Block> := [];
    var more := true;
    while more
      invariant emitter.lines == lines && emitter.none == none && emitter.step == step && fresh(emitter)
      invariant more ==> emitter.Valid()
      invariant Blocks(lines, 0, 0) == done + if more then emitter.Remaining() else []
      invariant AllTell(wm, lines, done, none, step)
      decreases more, |lines| - emitter.pos
    {
      ghost var b;
      var m, last;
      m, last, b := emitter.GetMetric();
      if m.name != "" {
        wm := wm + [m];
        ghost var rest := if last then [] else emitter.Remaining();
        Regroup(done, [b], rest);
        done := done + [b];
      }
      more := !last;
    }
  }

  function NamesOf<D>(ms: seq<MetricData<D>>): seq<string> {
    seq(|ms|, i requires 0 <= i < |ms| => ms[i].name)
  }

  lemma TellNames<D>(ms: seq<MetricData<D>>, lines: seq<Line>, none: D, step: (D, Line) -> D)
    requires AllTell(ms, lines, Blocks(lines, 0, 0), none, step)
    ensures NamesOf(ms) == Names(lines, 0)
  {
    BlocksAreNamed(lines, 0, 0);
    var bs := Blocks(lines, 0, 0);
    forall i | 0 <= i < |ms| ensures NamesOf(ms)[i] == BlockNames(lines, bs)[i] {
      assert Tells(ms[i], lines, bs[i], none, step);
    }
  }
}

/**
 * Metrics taken from an override file instead of the system
 * (internal/workloadmanager/workloadcollector.go).
 */
module WorkloadOverrides {
  import opened Common
  import opened Text
  import opened OverrideFile

  /** What the lines of a metric have said so far. */
  datatype Data = Data(value: Float, labels: map<string, string>)
  {
    /** A line with a value replaces the value, whether it can be parsed or not. Every other line gives a label. */
    function With(line: Line, parseFloat: string -> (Float, bool)): Data {
      if !line.About? then this
      else if line.key == "metric_value" then this.(value := parseFloat(line.value).0)
      else this.(labels := labels[line.key := TrimSpace(line.value)])
    }
  }

  const NO_DATA := Data(Finite(0.0), map[])

  function Step(parseFloat: string -> (Float, bool)): (Data, Line) -> Data {
    (data: Data, line: Line) => data.With(line, parseFloat)
  }

  /** What lines say about a metric. */
  function Said(lines: seq<Line>, parseFloat: string -> (Float, bool)): Data {
    DataOf(lines, NO_DATA, Step(parseFloat))
  }

  /** The labels of a metric are those of its lines. */
  lemma {:induction false} LabelsAre(lines: seq<Line>, parseFloat: string -> (Float, bool))
    ensures Said(lines, parseFloat).labels == Labels(lines, {"metric_value"})
  {
    if lines != [] {
      LabelsAre(lines[..|lines| - 1], parseFloat);
    }
  }

  /** The value of a metric is that of its last line with a value. */
  lemma {:induction false} LastValueWins(lines: seq<Line>, i: nat, parseFloat: string -> (Float, bool))
    requires i < |lines| && lines[i].About? && lines[i].key == "metric_value" && NoValue(lines[i + 1..])
    ensures Said(lines, parseFloat).value == parseFloat(lines[i].value).0
  {
    var init := lines[..|lines| - 1];
    if i < |init| {
      assert lines[i + 1..] == init[i + 1..] + [lines[|lines| - 1]];
      LastValueWins(init, i, parseFloat);
    }
  }

  ghost predicate NoValue(lines: seq<Line>) {
    forall line :: line in lines && line.About? ==> line.key != "metric_value"
  }

  /** Without such a line the value is zero. */
  lemma {:induction false} ValueIsZero(lines: seq<Line>, parseFloat: string -> (Float, bool))
    requires NoValue(lines)
    ensures Said(lines, parseFloat).value == Finite(0.0)
  {
    if lines != [] {
      var init := lines[..|lines| - 1];
      assert lines == init + [lines[|lines| - 1]];
      ValueIsZero(init, parseFloat);
    }
  }

  /** The metrics of a file, in order: one for every block. A file that cannot be read gives none. */
  method CollectOverrideMetrics(file: Option<seq<string>>, parseFloat: string -> (Float, bool)) returns (wm: seq<MetricData<Data>>)
    ensures file.None? ==> wm == []
    ensures file.Some? ==> AllTell(wm, Parsed(file.value), Blocks(Parsed(file.value), 0, 0), NO_DATA, Step(parseFloat))
    ensures file.Some? ==> NamesOf(wm) == Names(Parsed(file.value), 0)
  {
    wm := [];
    if file.None? {
      return;
    }
    wm := CollectLines(Parsed(file.value), NO_DATA, Step(parseFloat));
    TellNames(wm, Parsed(file.value), NO_DATA, Step(parseFloat));
  }
}

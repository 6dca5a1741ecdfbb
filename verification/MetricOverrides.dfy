/**
 * Metrics with typed values taken from an override file
 * (internal/metricoverrides/metricoverrides.go).
 */
module MetricOverrides {
  import opened Common
  import opened Text
  import opened OverrideFile

  /** What the lines of a metric have said so far. */
  datatype Data = Data(intValue: int, floatValue: Float, boolValue: bool, isFloat: bool, isBool: bool,
                       cumulative: bool, labels: map<string, string>)
  {
    /**
     * A line with a value is tried as an integer, a floating-point number and a
     * truth value. The numbers tried in vain are replaced too, but the type only
     * changes when one of the three is found.
     */
    function With(line: Line, parseFloat: string -> (Float, bool)): Data {
      if !line.About? then this
      else if line.key == "metric_value" then WithValue(line.value, parseFloat)
      else if line.key == "metric_type" then this.(cumulative := line.value == "METRIC_CUMULATIVE")
      else this.(labels := labels[line.key := TrimSpace(line.value)])
    }

    function WithValue(value: string, parseFloat: string -> (Float, bool)): Data {
      var i := this.(intValue := IntegerOf(value));
      if ParseInt(value).Some? then i.(isFloat := false, isBool := false)
      else
        var f := i.(floatValue := parseFloat(value).0);
        if parseFloat(value).1 then f.(isFloat := true, isBool := false)
        else
          var b := ParseBool(value);
          if b.Some? then f.(boolValue := b.value, isFloat := false, isBool := true) else f.(boolValue := false)
    }

    /** The value that is sent. */
    function Sent(): Value {
      if isFloat then FloatValue(floatValue) else if isBool then BoolValue(boolValue) else IntValue(intValue)
    }
  }

  datatype Value = IntValue(n: int) | FloatValue(x: Float) | BoolValue(b: bool)

  const NO_DATA := Data(0, Finite(0.0), false, false, false, false, map[])

  function Step(parseFloat: string -> (Float, bool)): (Data, Line) -> Data {
    (data: Data, line: Line) => data.With(line, parseFloat)
  }

  /** What lines say about a metric. */
  function Said(lines: seq<Line>, parseFloat: string -> (Float, bool)): Data {
    DataOf(lines, NO_DATA, Step(parseFloat))
  }

  /** The labels of a metric are those of its lines. */
  lemma {:induction false} LabelsAre(lines: seq<Line>, parseFloat: string -> (Float, bool))
    ensures Said(lines, parseFloat).labels == Labels(lines, {"metric_value", "metric_type"})
  {
    if lines != [] {
      LabelsAre(lines[..|lines| - 1], parseFloat);
      LineLabel(Said(lines[..|lines| - 1], parseFloat), lines[|lines| - 1], parseFloat);
    }
  }

  /** A line gives a label unless it says the value or the type. */
  lemma LineLabel(data: Data, line: Line, parseFloat: string -> (Float, bool))
    ensures data.With(line, parseFloat).labels
         == if line.About? && line.key != "metric_value" && line.key != "metric_type"
            then data.labels[line.key := TrimSpace(line.value)] else data.labels
  {
    if line.About? && line.key == "metric_value" {
      ValueKeepsLabels(data, line.value, parseFloat);
    }
  }

  lemma ValueKeepsLabels(data: Data, text: string, parseFloat: string -> (Float, bool))
    ensures data.WithValue(text, parseFloat).labels == data.labels
  {
  }

  /**
   * The value sent is that of the last line with a value. If that line has no
   * value of any type, a zero, or whatever parsing it left, is sent with the type of the lines before it.
   */
  lemma {:induction false} LastValueWins(lines: seq<Line>, i: nat, parseFloat: string -> (Float, bool))
    requires i < |lines| && lines[i].About? && lines[i].key == "metric_value" && Without(lines[i + 1..], "metric_value")
    ensures var text, before, sent := lines[i].value, Said(lines[..i], parseFloat), Said(lines, parseFloat).Sent();
      if ParseInt(text).Some? then sent == IntValue(ParseInt(text).value)
      else if parseFloat(text).1 then sent == FloatValue(parseFloat(text).0)
      else if ParseBool(text).Some? then sent == BoolValue(ParseBool(text).value)
      else if before.isFloat then sent == FloatValue(parseFloat(text).0)
      else if before.isBool then sent == BoolValue(false)
      else sent == IntValue(IntegerOf(text))
  {
    var init, last := lines[..|lines| - 1], lines[|lines| - 1];
    if i < |init| {
      assert lines[i + 1..] == init[i + 1..] + [last];
      LastValueWins(init, i, parseFloat);
      assert init[..i] == lines[..i];
      OtherLines(Said(init, parseFloat), last, parseFloat);
    } else {
      WithValueSends(Said(init, parseFloat), last.value, parseFloat);
    }
  }

  /** No line is about the given key. */
  ghost predicate Without(lines: seq<Line>, key: string) {
    forall line :: line in lines && line.About? ==> line.key != key
  }

  lemma OtherLines(d: Data, line: Line, parseFloat: string -> (Float, bool))
    requires line.About? ==> line.key != "metric_value"
    ensures d.With(line, parseFloat).Sent() == d.Sent()
  {
  }

  /** Without such a line the integer zero is sent. */
  lemma {:induction false} ZeroIsSent(lines: seq<Line>, parseFloat: string -> (Float, bool))
    requires Without(lines, "metric_value")
    ensures Said(lines, parseFloat).Sent() == IntValue(0)
  {
    if lines != [] {
      var init, last := lines[..|lines| - 1], lines[|lines| - 1];
      assert lines == init + [last];
      ZeroIsSent(init, parseFloat);
      OtherLines(Said(init, parseFloat), last, parseFloat);
    }
  }

  /** A metric is cumulative exactly if the last line about its type says so. */
  lemma {:induction false} LastTypeWins(lines: seq<Line>, i: nat, parseFloat: string -> (Float, bool))
    requires i < |lines| && lines[i].About? && lines[i].key == "metric_type" && Without(lines[i + 1..], "metric_type")
    ensures Said(lines, parseFloat).cumulative <==> lines[i].value == "METRIC_CUMULATIVE"
  {
    var init, last := lines[..|lines| - 1], lines[|lines| - 1];
    TypeOfLine(Said(init, parseFloat), last, parseFloat);
    if i < |init| {
      assert lines[i + 1..] == init[i + 1..] + [last];
      LastTypeWins(init, i, parseFloat);
    }
  }

  /** Without such a line it is a gauge. */
  lemma {:induction false} GaugeWithoutType(lines: seq<Line>, parseFloat: string -> (Float, bool))
    requires Without(lines, "metric_type")
    ensures !Said(lines, parseFloat).cumulative
  {
    if lines != [] {
      var init, last := lines[..|lines| - 1], lines[|lines| - 1];
      assert lines == init + [last];
      GaugeWithoutType(init, parseFloat);
      TypeOfLine(Said(init, parseFloat), last, parseFloat);
    }
  }

  lemma TypeOfLine(d: Data, line: Line, parseFloat: string -> (Float, bool))
    ensures d.With(line, parseFloat).cumulative
        <==> if line.About? && line.key == "metric_type" then line.value == "METRIC_CUMULATIVE" else d.cumulative
  {
  }

  lemma WithValueSends(d: Data, text: string, parseFloat: string -> (Float, bool))
    ensures var sent := d.WithValue(text, parseFloat).Sent();
      if ParseInt(text).Some? then sent == IntValue(ParseInt(text).value)
      else if parseFloat(text).1 then sent == FloatValue(parseFloat(text).0)
      else if ParseBool(text).Some? then sent == BoolValue(ParseBool(text).value)
      else if d.isFloat then sent == FloatValue(parseFloat(text).0)
      else if d.isBool then sent == BoolValue(false)
      else sent == IntValue(IntegerOf(text))
  {
    if ParseInt(text).Some? {
      assert IntegerOf(text) == ParseInt(text).value;
    }
  }

  /** The metrics of a file, in order: one for every block. A file that cannot be read gives none and an error. */
  method Collect(file: Option<seq<string>>, parseFloat: string -> (Float, bool)) returns (metrics: seq<MetricData<Data>>,
                 failed: bool)
    ensures failed == file.None? && (failed ==> metrics == [])
    ensures file.Some? ==> AllTell(metrics, Parsed(file.value), Blocks(Parsed(file.value), 0, 0), NO_DATA, Step(parseFloat))
    ensures file.Some? ==> NamesOf(metrics) == Names(Parsed(file.value), 0)
  {
    if file.None? {
      return [], true;
    }
    metrics := CollectLines(Parsed(file.value), NO_DATA, Step(parseFloat));
    TellNames(metrics, Parsed(file.value), NO_DATA, Step(parseFloat));
    failed := false;
  }
}

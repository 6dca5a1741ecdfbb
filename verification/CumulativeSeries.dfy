/**
 * Cumulative time series built from the rows of a HANA monitoring query
 * (internal/hanamonitoring/hanamonitoring.go).
 */
module CumulativeSeries {
  import opened Common
  import opened SeriesKeys
  import T = Text

  // ----- rows ---------------------------------------------------------------

  type int64 = n: int | -0x8000_0000_0000_0000 <= n <= 0x7fff_ffff_ffff_ffff

  datatype MetricType = LabelMetric | GaugeMetric | CumulativeMetric | NoMetric
  datatype ValueType = Int64 | Double | Bool | Text | Unspecified

  datatype Column = Column(name: string, nameOverride: string, metricType: MetricType, valueType: ValueType)

  /** What a column of a row holds, by the type of the variable it was read into. */
  datatype Cell = IntCell(n: int64) | FloatCell(x: real) | BoolCell(b: bool) | StringCell(s: string) | AnyCell

  datatype Number = IntNumber(n: int64) | FloatNumber(x: real)

  /** A sample of a cumulative series. */
  datatype Sample = Sample(key: SeriesKey, value: Number, time: int)

  /** What taking a sample leads to: nothing, a point of the series, or the panic of a failed type assertion. */
  datatype Emission = Nothing | Point(key: SeriesKey, value: Number, startTime: int, endTime: int) | Panic

  /** Sums wrap around like 64-bit integers. */
  function Wrap(n: int): int64 {
    (n + 0x8000_0000_0000_0000) % 0x1_0000_0000_0000_0000 - 0x8000_0000_0000_0000
  }

  // ----- the series of a key ------------------------------------------------

  /** The samples of one key, in order. */
  ghost function OfKey(h: seq<Sample>, k: SeriesKey): seq<Sample> {
    if h == [] then []
    else OfKey(h[..|h| - 1], k) + if h[|h| - 1].key == k then [h[|h| - 1]] else []
  }

  ghost function IntSum(h: seq<Sample>): int {
    if h == [] then 0 else IntSum(h[..|h| - 1]) + if h[|h| - 1].value.IntNumber? then h[|h| - 1].value.n else 0
  }

  ghost function FloatSum(h: seq<Sample>): real {
    if h == [] then 0.0 else FloatSum(h[..|h| - 1]) + if h[|h| - 1].value.FloatNumber? then h[|h| - 1].value.x else 0.0
  }

  /** The sum of the samples of a series. */
  ghost function Total(h: seq<Sample>): Number
    requires h != []
  {
    if h[0].value.IntNumber? then IntNumber(Wrap(IntSum(h))) else FloatNumber(FloatSum(h))
  }

  predicate SameKind(a: Number, b: Number) {
    a.IntNumber? <==> b.IntNumber?
  }

  /** Samples with the same key have values of the same kind. */
  ghost predicate Uniform(h: seq<Sample>) {
    forall i, j :: 0 <= i < j < |h| && h[i].key == h[j].key ==> SameKind(h[i].value, h[j].value)
  }

  lemma OfKeySnoc(h: seq<Sample>, s: Sample, k: SeriesKey)
    ensures OfKey(h + [s], k) == OfKey(h, k) + if s.key == k then [s] else []
  {
    assert (h + [s])[..|h|] == h;
  }

  lemma SumSnoc(h: seq<Sample>, s: Sample)
    ensures IntSum(h + [s]) == IntSum(h) + if s.value.IntNumber? then s.value.n else 0
    ensures FloatSum(h + [s]) == FloatSum(h) + if s.value.FloatNumber? then s.value.x else 0.0
  {
    assert (h + [s])[..|h|] == h;
  }

  lemma {:induction false} OfKeyExactly(h: seq<Sample>, k: SeriesKey)
    ensures forall s :: s in OfKey(h, k) <==> s in h && s.key == k
  {
    if h != [] {
      var init, last := h[..|h| - 1], h[|h| - 1];
      assert h == init + [last];
      OfKeyExactly(init, k);
    }
  }

  /** Taking a sample keeps the history uniform exactly when it is of the kind of the first sample of its series. */
  lemma UniformSnoc(h: seq<Sample>, s: Sample)
    requires Uniform(h)
    ensures Uniform(h + [s]) <==> OfKey(h, s.key) == [] || SameKind(OfKey(h, s.key)[0].value, s.value)
  {
    OfKeyExactly(h, s.key);
    var of := OfKey(h, s.key);
    if of != [] {
      assert of[0] in h;
      var i :| 0 <= i < |h| && h[i] == of[0];
      assert (h + [s])[i] == of[0] && (h + [s])[|h|] == s;
      forall j | 0 <= j < |h| && h[j].key == s.key ensures SameKind(h[j].value, of[0].value) {
        assert i == j || i < j || j < i;
      }
    } else {
      assert forall j :: 0 <= j < |h| && h[j].key == s.key ==> h[j] in of;
    }
  }

  lemma WrapAdd(a: int, b: int)
    ensures Wrap(Wrap(a) + b) == Wrap(a + b)
  {
    var m := 0x1_0000_0000_0000_0000;
    var q := (a + 0x8000_0000_0000_0000) / m;
    assert Wrap(a) == a - q * m;
    WrapShift(a + b, q);
  }

  lemma WrapShift(n: int, q: int)
    ensures Wrap(n - q * 0x1_0000_0000_0000_0000) == Wrap(n)
  {
  }

  lemma {:induction false} SumOfOne(s: Sample)
    ensures Total([s]) == s.value
  {
    SumSnoc([], s);
    assert [] + [s] == [s];
  }

  /** Adding a sample to the total of a series gives the total of the longer series. */
  lemma TotalSnoc(h: seq<Sample>, s: Sample)
    requires h != [] && SameKind(h[0].value, s.value)
    ensures Total(h + [s]) == Plus(Total(h), s.value)
  {
    SumSnoc(h, s);
    assert (h + [s])[0] == h[0];
    if s.value.IntNumber? {
      WrapAdd(IntSum(h), s.value.n);
    }
  }

  function Plus(a: Number, b: Number): Number
    requires SameKind(a, b)
  {
    if a.IntNumber? then IntNumber(Wrap(a.n + b.n)) else FloatNumber(a.x + b.x)
  }

  // ----- stored sums --------------------------------------------------------

  datatype PrevVal = PrevVal(val: Number, startTime: int)

  /** What a sample should lead to, given the samples before it. */
  ghost function Expected(h: seq<Sample>, s: Sample): Emission {
    var series := OfKey(h + [s], s.key);
    if !Uniform(h + [s]) then Panic
    else if |series| < 2 then Nothing
    else Point(s.key, Total(series), series[0].time, s.time)
  }

  /** A stored sum is the sum of the samples of its series, with the time of the first. */
  ghost predicate SumAt(sums: map<SeriesKey, PrevVal>, h: seq<Sample>, k: SeriesKey) {
    var series := OfKey(h, k);
    if series == [] then k !in sums else k in sums && sums[k] == PrevVal(Total(series), series[0].time)
  }

  ghost predicate Sums(sums: map<SeriesKey, PrevVal>, h: seq<Sample>) {
    Uniform(h) && forall k :: SumAt(sums, h, k)
  }

  lemma TakeSample(sums: map<SeriesKey, PrevVal>, h: seq<Sample>, s: Sample, v: PrevVal)
    requires Sums(sums, h) && Uniform(h + [s])
    requires var series := OfKey(h, s.key) + [s]; v == PrevVal(Total(series), series[0].time)
    ensures Sums(sums[s.key := v], h + [s])
  {
    var sums', h' := sums[s.key := v], h + [s];
    forall k ensures SumAt(sums', h', k) {
      OfKeySnoc(h, s, k);
      assert SumAt(sums, h, k);
      if k != s.key {
        assert OfKey(h, k) + [] == OfKey(h, k);
      }
    }
  }

  /**
   * What a sample leads to: a panic if it is not of the kind of the first sample
   * of its series, otherwise nothing if it is the first, and else the sum of the
   * series with it, from the time of the first.
   */
  lemma EmitsFromTheSecondOn(h: seq<Sample>, s: Sample)
    requires Uniform(h)
    ensures Expected(h, s) == Panic <==> exists x :: x in h && x.key == s.key && !SameKind(x.value, s.value)
    ensures Expected(h, s) == Nothing <==> forall x :: x in h ==> x.key != s.key
    ensures Expected(h, s).Point? ==>
      OfKey(h, s.key) != [] && Expected(h, s) == Point(s.key, Total(OfKey(h, s.key) + [s]), OfKey(h, s.key)[0].time, s.time)
  {
    OfKeySnoc(h, s, s.key);
    OfKeyExactly(h, s.key);
    UniformSnoc(h, s);
    var of := OfKey(h, s.key);
    if of != [] {
      assert of[0] in of;
      forall x | x in h && x.key == s.key ensures SameKind(x.value, of[0].value) {
        KindsAgree(h, x, of[0]);
      }
    }
  }

  /** Samples of other series never change what a sample leads to, be it a panic. */
  lemma SeriesAreIndependent(h: seq<Sample>, g: seq<Sample>, s: Sample)
    requires Uniform(h) && Uniform(g) && OfKey(h, s.key) == OfKey(g, s.key)
    ensures Expected(h, s) == Expected(g, s)
  {
    UniformSnoc(h, s);
    UniformSnoc(g, s);
    OfKeySnoc(h, s, s.key);
    OfKeySnoc(g, s, s.key);
  }

  // ----- the metrics of a row -----------------------------------------------

  datatype Metric =
    | GaugeInt(path: string, labels: Labels, n: int64, time: int)
    | GaugeFloat(path: string, labels: Labels, x: real, time: int)
    | GaugeBool(path: string, labels: Labels, b: bool, time: int)
    | Cumulative(path: string, labels: Labels, value: Number, startTime: int, endTime: int)

  const METRIC_URL := "workload.googleapis.com/sap/hanamonitoring"

  function Path(query: string, c: Column): string {
    if c.nameOverride != "" then METRIC_URL + "/" + c.nameOverride else METRIC_URL + "/" + query + "/" + c.name
  }

  /** A cell that does not have the type of its column counts as zero. */
  function Value(c: Column, cell: Cell): Number {
    if c.valueType.Int64? then IntNumber(if cell.IntCell? then cell.n else 0)
    else FloatNumber(if cell.FloatCell? then cell.x else 0.0)
  }

  /** The columns that samples are taken from. */
  predicate Summed(c: Column) {
    c.metricType.CumulativeMetric? && (c.valueType.Int64? || c.valueType.Double?)
  }

  ghost function KeyText(labels: Labels): (text: string)
    ensures IsKeyText(labels, text)
  {
    KeyTextExists(labels);
    var text :| IsKeyText(labels, text);
    text
  }

  lemma KeyTextExists(labels: Labels)
    ensures exists text :: IsKeyText(labels, text)
  {
    var names := Listed(labels, labels.Keys);
    assert IsKeyText(labels, T.Join(Sorted(Entries(names, labels)), ','));
  }

  lemma {:induction false} Listed(labels: Labels, some: set<string>) returns (names: seq<string>)
    ensures forall n :: n in names <==> n in some
    ensures forall i, j :: 0 <= i < j < |names| ==> names[i] != names[j]
    decreases some
  {
    names := [];
    if some != {} {
      var n :| n in some;
      names := Listed(labels, some - {n});
      names := names + [n];
    }
  }

  /** The labels of a row: the given ones, and the text of its first `n` columns that are labels. */
  function RowLabels(base: Labels, columns: seq<Column>, cells: seq<Cell>, n: nat): Labels
    requires n <= |columns| == |cells|
  {
    if n == 0 then base
    else
      var labels := RowLabels(base, columns, cells, n - 1);
      if columns[n - 1].metricType.LabelMetric? && cells[n - 1].StringCell?
      then labels[columns[n - 1].name := cells[n - 1].s] else labels
  }

  ghost function SampleOf(query: string, labels: Labels, c: Column, cell: Cell, time: int): Sample {
    Sample(SeriesKey(Path(query, c), "CUMULATIVE", KeyText(labels)), Value(c, cell), time)
  }

  /** The samples of the first `n` columns of a row. */
  ghost function RowSamples(query: string, labels: Labels, columns: seq<Column>, cells: seq<Cell>, times: seq<int>, n: nat): seq<Sample>
    requires n <= |columns| == |cells| == |times|
  {
    if n == 0 then []
    else RowSamples(query, labels, columns, cells, times, n - 1)
         + if Summed(columns[n - 1]) then [SampleOf(query, labels, columns[n - 1], cells[n - 1], times[n - 1])] else []
  }

  function Gauges(query: string, labels: Labels, c: Column, cell: Cell, time: int): seq<Metric> {
    match c.valueType
    case Int64 => [GaugeInt(Path(query, c), labels, if cell.IntCell? then cell.n else 0, time)]
    case Double => [GaugeFloat(Path(query, c), labels, if cell.FloatCell? then cell.x else 0.0, time)]
    case Bool => [GaugeBool(Path(query, c), labels, cell.BoolCell? && cell.b, time)]
    case _ => []
  }

  function Points(query: string, labels: Labels, c: Column, e: Emission): seq<Metric> {
    if e.Point? then [Cumulative(Path(query, c), labels, e.value, e.startTime, e.endTime)] else []
  }

  /** The metrics of the first `n` columns of a row, given the samples of earlier rows. */
  ghost function RowMetrics(h: seq<Sample>, query: string, labels: Labels,
                            columns: seq<Column>, cells: seq<Cell>, times: seq<int>, n: nat): seq<Metric>
    requires n <= |columns| == |cells| == |times|
  {
    if n == 0 then []
    else
      var c, cell, time := columns[n - 1], cells[n - 1], times[n - 1];
      RowMetrics(h, query, labels, columns, cells, times, n - 1)
      + if c.metricType.GaugeMetric? then Gauges(query, labels, c, cell, time)
        else if Summed(c) then
          var before := h + RowSamples(query, labels, columns, cells, times, n - 1);
          Points(query, labels, c, Expected(before, SampleOf(query, labels, c, cell, time)))
        else []
  }

  // ----- what a row yields, told from its cells ------------------------------

  /** The path of a metric: its column under its query, unless the column has a name of its own. */
  lemma PathExactly(query: string, c: Column)
    ensures c.nameOverride == "" ==> Path(query, c) == "workload.googleapis.com/sap/hanamonitoring/" + query + "/" + c.name
    ensures c.nameOverride != "" ==> Path(query, c) == "workload.googleapis.com/sap/hanamonitoring/" + c.nameOverride
  {
    var url := "workload.googleapis.com/sap/hanamonitoring";
    assert METRIC_URL == url && url + "/" == "workload.googleapis.com/sap/hanamonitoring/";
  }

  /** What a gauge column emits: a number of its type, zero if the cell has another type, or a truth value. */
  lemma GaugesExactly(query: string, labels: Labels, c: Column, cell: Cell, time: int)
    ensures var emitted, path := Gauges(query, labels, c, cell, time), Path(query, c);
      && (c.valueType == Int64 && cell.IntCell? ==> emitted == [GaugeInt(path, labels, cell.n, time)])
      && (c.valueType == Int64 && !cell.IntCell? ==> emitted == [GaugeInt(path, labels, 0, time)])
      && (c.valueType == Double && cell.FloatCell? ==> emitted == [GaugeFloat(path, labels, cell.x, time)])
      && (c.valueType == Double && !cell.FloatCell? ==> emitted == [GaugeFloat(path, labels, 0.0, time)])
      && (c.valueType == Bool && cell.BoolCell? ==> emitted == [GaugeBool(path, labels, cell.b, time)])
      && (c.valueType == Bool && !cell.BoolCell? ==> emitted == [GaugeBool(path, labels, false, time)])
      && (c.valueType in {Text, Unspecified} ==> emitted == [])
  {
  }

  /** What a summed column takes from its cell. */
  lemma SampleExactly(query: string, labels: Labels, c: Column, cell: Cell, time: int)
    ensures var s := SampleOf(query, labels, c, cell, time);
      && s.time == time && s.key.metricType == Path(query, c) && s.key.metricKind == "CUMULATIVE" && IsKeyText(labels, s.key.metricLabels)
      && (c.valueType == Int64 && cell.IntCell? ==> s.value == IntNumber(cell.n))
      && (c.valueType == Double && cell.FloatCell? ==> s.value == FloatNumber(cell.x))
      && (c.valueType == Int64 && !cell.IntCell? ==> s.value == IntNumber(0))
      && (c.valueType == Double && !cell.FloatCell? ==> s.value == FloatNumber(0.0))
  {
  }

  /** Sums that leave the range of 64-bit integers wrap around. */
  lemma WrapExactly(n: int)
    ensures (Wrap(n) - n) % 0x1_0000_0000_0000_0000 == 0
    ensures -0x8000_0000_0000_0000 <= n <= 0x7fff_ffff_ffff_ffff ==> Wrap(n) == n
  {
  }

  /** The metrics of a row are those of its columns, one after the other. */
  ghost predicate RowYields(metrics: seq<Metric>, parts: seq<seq<Metric>>, h: seq<Sample>, query: string, labels: Labels,
                            columns: seq<Column>, cells: seq<Cell>, times: seq<int>)
    requires |columns| == |cells| == |times|
  {
    && |parts| == |columns| && metrics == Flatten(parts)
    && forall i :: 0 <= i < |columns| ==> ColumnYields(parts[i], h, query, labels, columns, cells, times, i)
  }

  ghost function Flatten(parts: seq<seq<Metric>>): seq<Metric> {
    if parts == [] then [] else Flatten(parts[..|parts| - 1]) + parts[|parts| - 1]
  }

  /** What one column yields: a gauge, the sum of its series if this is not the first sample, or nothing. */
  ghost predicate ColumnYields(part: seq<Metric>, h: seq<Sample>, query: string, labels: Labels,
                               columns: seq<Column>, cells: seq<Cell>, times: seq<int>, i: nat)
    requires i < |columns| == |cells| == |times|
  {
    var c, cell, time, path := columns[i], cells[i], times[i], Path(query, columns[i]);
    match c.metricType
    case GaugeMetric =>
      (match c.valueType
       case Int64 => part == [GaugeInt(path, labels, if cell.IntCell? then cell.n else 0, time)]
       case Double => part == [GaugeFloat(path, labels, if cell.FloatCell? then cell.x else 0.0, time)]
       case Bool => part == [GaugeBool(path, labels, cell.BoolCell? && cell.b, time)]
       case _ => part == [])
    case CumulativeMetric =>
      if c.valueType != Int64 && c.valueType != Double then part == []
      else
        SumYields(part, path, labels, h + RowSamples(query, labels, columns, cells, times, i), SampleOf(query, labels, c, cell, time))
    case _ => part == []
  }

  /** The first sample of a series yields nothing, any other one the sum so far, since the first. */
  ghost predicate SumYields(part: seq<Metric>, path: string, labels: Labels, before: seq<Sample>, s: Sample) {
    if forall x :: x in before ==> x.key != s.key then part == []
    else part == [Cumulative(path, labels, Total(OfKey(before + [s], s.key)), OfKey(before + [s], s.key)[0].time, s.time)]
  }

  /** The metrics of a row that does not panic are what its columns yield. */
  lemma {:induction false} RowYieldsUpTo(h: seq<Sample>, query: string, labels: Labels,
                                         columns: seq<Column>, cells: seq<Cell>, times: seq<int>, n: nat) returns (parts: seq<seq<Metric>>)
    requires n <= |columns| == |cells| == |times| && Uniform(h + RowSamples(query, labels, columns, cells, times, n))
    ensures |parts| == n && RowMetrics(h, query, labels, columns, cells, times, n) == Flatten(parts)
    ensures forall i :: 0 <= i < n ==> ColumnYields(parts[i], h, query, labels, columns, cells, times, i)
  {
    parts := [];
    if n > 0 {
      var before := h + RowSamples(query, labels, columns, cells, times, n - 1);
      UniformPrefix(before, h + RowSamples(query, labels, columns, cells, times, n));
      parts := RowYieldsUpTo(h, query, labels, columns, cells, times, n - 1);
      var part := OneColumnYields(h, query, labels, columns, cells, times, n - 1);
      assert (parts + [part])[..n - 1] == parts;
      parts := parts + [part];
    }
  }

  lemma UniformPrefix(a: seq<Sample>, b: seq<Sample>)
    requires a <= b && Uniform(b)
    ensures Uniform(a)
  {
  }

  lemma OneColumnYields(h: seq<Sample>, query: string, labels: Labels,
                        columns: seq<Column>, cells: seq<Cell>, times: seq<int>, i: nat) returns (part: seq<Metric>)
    requires i < |columns| == |cells| == |times| && Uniform(h + RowSamples(query, labels, columns, cells, times, i + 1))
    ensures RowMetrics(h, query, labels, columns, cells, times, i + 1) == RowMetrics(h, query, labels, columns, cells, times, i) + part
    ensures ColumnYields(part, h, query, labels, columns, cells, times, i)
  {
    var c, cell, time := columns[i], cells[i], times[i];
    if c.metricType.GaugeMetric? {
      part := Gauges(query, labels, c, cell, time);
    } else if Summed(c) {
      part := SummedYields(h, query, labels, columns, cells, times, i);
    } else {
      part := [];
    }
  }

  lemma SummedYields(h: seq<Sample>, query: string, labels: Labels,
                     columns: seq<Column>, cells: seq<Cell>, times: seq<int>, i: nat) returns (part: seq<Metric>)
    requires i < |columns| == |cells| == |times| && Uniform(h + RowSamples(query, labels, columns, cells, times, i + 1))
    requires Summed(columns[i])
    ensures RowMetrics(h, query, labels, columns, cells, times, i + 1) == RowMetrics(h, query, labels, columns, cells, times, i) + part
    ensures ColumnYields(part, h, query, labels, columns, cells, times, i)
  {
    var c := columns[i];
    var before, s := h + RowSamples(query, labels, columns, cells, times, i), SampleOf(query, labels, c, cells[i], times[i]);
    part := Points(query, labels, c, Expected(before, s));
    NextSample(h, query, labels, columns, cells, times, i);
    PointYields(before, s, query, labels, c);
  }

  lemma NextSample(h: seq<Sample>, query: string, labels: Labels, columns: seq<Column>, cells: seq<Cell>, times: seq<int>, i: nat)
    requires i < |columns| == |cells| == |times| && Summed(columns[i])
    ensures h + RowSamples(query, labels, columns, cells, times, i + 1)
         == h + RowSamples(query, labels, columns, cells, times, i) + [SampleOf(query, labels, columns[i], cells[i], times[i])]
  {
  }

  lemma PointYields(before: seq<Sample>, s: Sample, query: string, labels: Labels, c: Column)
    requires Uniform(before + [s])
    ensures SumYields(Points(query, labels, c, Expected(before, s)), Path(query, c), labels, before, s)
  {
    OfKeySnoc(before, s, s.key);
    OfKeyExactly(before, s.key);
  }

  /** The labels of a row: each label column that holds a string gives one, later columns replace earlier ones. */
  lemma {:induction false} LabelOfColumn(base: Labels, columns: seq<Column>, cells: seq<Cell>, n: nat, i: nat)
    requires i < n <= |columns| == |cells| && columns[i].metricType == LabelMetric && cells[i].StringCell?
    requires forall j :: i < j < n && columns[j].metricType == LabelMetric && cells[j].StringCell? ==> columns[j].name != columns[i].name
    ensures columns[i].name in RowLabels(base, columns, cells, n) && RowLabels(base, columns, cells, n)[columns[i].name] == cells[i].s
  {
    if i < n - 1 {
      LabelOfColumn(base, columns, cells, n - 1, i);
    }
  }

  /** Other names have the labels given for all rows, or none. */
  lemma {:induction false} OtherLabels(base: Labels, columns: seq<Column>, cells: seq<Cell>, n: nat, name: string)
    requires n <= |columns| == |cells|
    requires forall j :: 0 <= j < n && columns[j].metricType == LabelMetric && cells[j].StringCell? ==> columns[j].name != name
    ensures name in RowLabels(base, columns, cells, n) <==> name in base
    ensures name in base ==> RowLabels(base, columns, cells, n)[name] == base[name]
  {
    if n > 0 {
      OtherLabels(base, columns, cells, n - 1, name);
    }
  }

  // ----- when no type assertion fails ---------------------------------------

  /** Columns that are summed under the same path have the same type of values. */
  ghost predicate Consistent(query: string, columns: seq<Column>) {
    forall i, j :: 0 <= i < j < |columns| && Summed(columns[i]) && Summed(columns[j]) && Path(query, columns[i]) == Path(query, columns[j])
      ==> columns[i].valueType == columns[j].valueType
  }

  /** Every sample comes from a column of the query. */
  ghost predicate FromColumns(h: seq<Sample>, query: string, columns: seq<Column>) {
    forall s :: s in h ==> FromSome(s, query, columns)
  }

  ghost predicate FromSome(s: Sample, query: string, columns: seq<Column>) {
    exists i :: 0 <= i < |columns| && Summed(columns[i]) && Path(query, columns[i]) == s.key.metricType
                && (columns[i].valueType.Int64? <==> s.value.IntNumber?)
  }

  lemma ConsistentIsUniform(h: seq<Sample>, query: string, columns: seq<Column>)
    requires FromColumns(h, query, columns) && Consistent(query, columns)
    ensures Uniform(h)
  {
    forall i, j | 0 <= i < j < |h| && h[i].key == h[j].key ensures SameKind(h[i].value, h[j].value) {
      assert FromSome(h[i], query, columns) && FromSome(h[j], query, columns);
    }
  }

  lemma {:induction false} RowFromColumns(query: string, labels: Labels, columns: seq<Column>, cells: seq<Cell>,
        times: seq<int>, n: nat)
    requires n <= |columns| == |cells| == |times|
    ensures FromColumns(RowSamples(query, labels, columns, cells, times, n), query, columns)
  {
    if n > 0 {
      RowFromColumns(query, labels, columns, cells, times, n - 1);
      if Summed(columns[n - 1]) {
        var s := SampleOf(query, labels, columns[n - 1], cells[n - 1], times[n - 1]);
        assert FromSome(s, query, columns);
        FromColumnsSnoc(RowSamples(query, labels, columns, cells, times, n - 1), s, query, columns);
      }
    }
  }

  lemma FromColumnsSnoc(h: seq<Sample>, s: Sample, query: string, columns: seq<Column>)
    requires FromColumns(h, query, columns) && FromSome(s, query, columns)
    ensures FromColumns(h + [s], query, columns)
  {
  }

  lemma {:induction false} RowHasSample(query: string, labels: Labels, columns: seq<Column>, cells: seq<Cell>, times: seq<int>,
                                        n: nat, i: nat)
    requires i < n <= |columns| == |cells| == |times| && Summed(columns[i])
    ensures SampleOf(query, labels, columns[i], cells[i], times[i]) in RowSamples(query, labels, columns, cells, times, n)
  {
    if i < n - 1 {
      RowHasSample(query, labels, columns, cells, times, n - 1, i);
    }
  }

  /** If every row could be summed, then the columns are consistent. */
  lemma UniformIsConsistent(h: seq<Sample>, query: string, labels: Labels, columns: seq<Column>, cells: seq<Cell>, times: seq<int>)
    requires |columns| == |cells| == |times|
    requires Uniform(h + RowSamples(query, labels, columns, cells, times, |columns|))
    ensures Consistent(query, columns)
  {
    var row := RowSamples(query, labels, columns, cells, times, |columns|);
    forall i, j | 0 <= i < j < |columns| && Summed(columns[i]) && Summed(columns[j]) && Path(query, columns[i]) == Path(query, columns[j])
      ensures columns[i].valueType == columns[j].valueType
    {
      RowHasSample(query, labels, columns, cells, times, |columns|, i);
      RowHasSample(query, labels, columns, cells, times, |columns|, j);
      KindsAgree(h + row, SampleOf(query, labels, columns[i], cells[i], times[i]), SampleOf(query, labels, columns[j], cells[j], times[j]));
    }
  }

  lemma KindsAgree(h: seq<Sample>, s: Sample, t: Sample)
    requires Uniform(h) && s in h && t in h && s.key == t.key
    ensures SameKind(s.value, t.value)
  {
    var i :| 0 <= i < |h| && h[i] == s;
    var j :| 0 <= j < |h| && h[j] == t;
    assert i == j || i < j || j < i;
  }

  lemma PanicIsInconsistent(h: seq<Sample>, query: string, columns: seq<Column>)
    requires FromColumns(h, query, columns) && !Uniform(h)
    ensures !Consistent(query, columns)
  {
    if Consistent(query, columns) {
      ConsistentIsUniform(h, query, columns);
    }
  }

  // ----- the running sums of a query ----------------------------------------

  class RunningSums {
    var sums: map<SeriesKey, PrevVal>
    /** All samples taken so far. */
    ghost var history: seq<Sample>

    ghost predicate Valid()
      reads this
    {
      Sums(sums, history)
    }

    constructor ()
      ensures Valid() && history == []
    {
      sums, history := map[], [];
    }

    /**
     * Takes a sample. The first sample of a series emits nothing, every further
     * one emits the sum of the series so far with the time of its first sample.
     * Other series do not matter.
     */
    method CreateCumulativeMetric(s: Sample) returns (e: Emission)
      requires Valid()
      modifies this
      ensures e == Expected(old(history), s)
      ensures e == Panic ==> sums == old(sums) && history == old(history)
      ensures e != Panic ==> Valid() && history == old(history) + [s]
    {
      UniformSnoc(history, s);
      assert SumAt(sums, history, s.key);
      OfKeySnoc(history, s, s.key);
      ghost var series := OfKey(history, s.key);
      SumOfOne(s);
      if s.key in sums {
        var last := sums[s.key];
        if !SameKind(last.val, s.value) {
          return Panic;
        }
        TotalSnoc(series, s);
        e := Point(s.key, Plus(last.val, s.value), last.startTime, s.time);
        TakeSample(sums, history, s, PrevVal(e.value, last.startTime));
        sums := sums[s.key := PrevVal(e.value, last.startTime)];
      } else {
        e := Nothing;
        assert [] + [s] == [s];
        TakeSample(sums, history, s, PrevVal(s.value, s.time));
        sums := sums[s.key := PrevVal(s.value, s.time)];
      }
      history := history + [s];
    }

    /** The labels of a row. */
    method CreateLabels(base: Labels, columns: seq<Column>, cells: seq<Cell>) returns (labels: Labels)
      requires |columns| == |cells|
      ensures labels == RowLabels(base, columns, cells, |columns|)
    {
      labels := base;
      for i := 0 to |columns|
        invariant labels == RowLabels(base, columns, cells, i)
      {
        if columns[i].metricType.LabelMetric? && cells[i].StringCell? {
          labels := labels[columns[i].name := cells[i].s];
        }
      }
    }

    /** The sample of a column and what it leads to. */
    method SampleColumn(query: string, labels: Labels, c: Column, cell: Cell, time: int) returns (e: Emission)
      requires Valid()
      modifies this
      ensures var s := SampleOf(query, labels, c, cell, time);
        && e == Expected(old(history), s)
        && (e == Panic ==> !Uniform(old(history) + [s]))
        && (e != Panic ==> Valid() && history == old(history) + [s])
    {
      var key := PrepareKey(Path(query, c), "CUMULATIVE", labels);
      KeyIsUnique(labels, key.metricLabels, KeyText(labels));
      e := CreateCumulativeMetric(Sample(key, Value(c, cell), time));
    }

    /**
     * The metrics of a row: a gauge for every gauge column, a point for every
     * summed column that is not the first sample of its series. Panics, whatever
     * the row holds, exactly when the columns are not consistent.
     */
    method CreateMetricsForRow(query: string, base: Labels, columns: seq<Column>, cells: seq<Cell>, times: seq<int>)
      returns (metrics: seq<Metric>, panicked: bool)
      requires Valid() && FromColumns(history, query, columns) && |columns| == |cells| == |times|
      modifies this
      ensures panicked <==> !Consistent(query, columns)
      ensures !panicked ==>
        var labels := RowLabels(base, columns, cells, |columns|);
        && Valid() && FromColumns(history, query, columns)
        && history == old(history) + RowSamples(query, labels, columns, cells, times, |columns|)
        && metrics == RowMetrics(old(history), query, labels, columns, cells, times, |columns|)
    {
      var labels := CreateLabels(base, columns, cells);
      ghost var before := history;
      metrics := [];
      assert before + [] == before;
      for i := 0 to |columns|
        invariant Valid() && FromColumns(history, query, columns)
        invariant history == before + RowSamples(query, labels, columns, cells, times, i)
        invariant metrics == RowMetrics(before, query, labels, columns, cells, times, i)
      {
        var c := columns[i];
        if c.metricType.GaugeMetric? {
          metrics := metrics + Gauges(query, labels, c, cells[i], times[i]);
        } else if Summed(c) {
          ghost var s := SampleOf(query, labels, c, cells[i], times[i]);
          assert FromSome(s, query, columns);
          ghost var h := history;
          var e := SampleColumn(query, labels, c, cells[i], times[i]);
          if e == Panic {
            PanicIsInconsistent(h + [s], query, columns);
            return [], true;
          }
          metrics := metrics + Points(query, labels, c, e);
          Regroup(before, RowSamples(query, labels, columns, cells, times, i), [s]);
        }
      }
      UniformIsConsistent(before, query, labels, columns, cells, times);
      panicked := false;
    }
  }
}

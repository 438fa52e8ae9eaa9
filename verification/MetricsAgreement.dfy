/** What each export path writes for a family, and exactly when the two agree
    (pkg/metrics/metrics.go: transformMetricFamily, emitMetricFamily). */
module MetricsAgreement {
  import opened GoStrings
  import opened MetricsPaths

  datatype Sample = Sample(
    name: string, help: string, kind: Kind, labels: multiset<LabelPair>, value: Value, timestampMs: Option<int>)

  /** A gauge histogram is exported as a histogram. */
  function ExportKind(kind: Kind): Kind {
    if kind == GaugeHistogram then Histogram else kind
  }

  function ReadSpread(d: Distribution): Value {
    Spread(d.count, d.sum, multiset(ReadPoints(d.points)))
  }

  function ConstSpread(d: Distribution): Value {
    Spread(d.count, d.sum, multiset(MapPoints(PointMap(d.points))))
  }

  /** A value as the text encoder reads it off the metric. */
  function ReadValue(kind: Kind, m: Metric): Value
    requires HasValidValue(kind, Some(m))
  {
    if kind == Counter then Single(m.counter.value)
    else if kind == Gauge then Single(m.gauge.value)
    else if kind == Untyped then Single(m.untyped.value)
    else ReadSpread(if kind == Summary then m.summary.value else m.histogram.value)
  }

  /** A value as the client library's constant metrics hold it. */
  function ConstValue(kind: Kind, m: Metric): Value
    requires HasValidValue(kind, Some(m))
  {
    if kind == Counter then Single(m.counter.value)
    else if kind == Gauge then Single(m.gauge.value)
    else if kind == Untyped then Single(m.untyped.value)
    else ConstSpread(if kind == Summary then m.summary.value else m.histogram.value)
  }

  predicate CleanValue(kind: Kind, m: Metric)
    requires HasValidValue(kind, Some(m))
  {
    if kind == Summary then Clean(m.summary.value.points)
    else if kind == Histogram || kind == GaugeHistogram then Clean(m.histogram.value.points)
    else true
  }

  /** Nothing of a value is lost on the way to the text: two metrics that read the same have the
      same number, or the same count, sum and points. */
  lemma ReadValueLossless(kind: Kind, m: Metric, n: Metric)
    requires HasValidValue(kind, Some(m)) && HasValidValue(kind, Some(n)) && ReadValue(kind, m) == ReadValue(kind, n)
    ensures kind == Counter ==> m.counter == n.counter && ReadValue(kind, m) == Single(m.counter.value)
    ensures kind == Gauge ==> m.gauge == n.gauge && ReadValue(kind, m) == Single(m.gauge.value)
    ensures kind == Untyped ==> m.untyped == n.untyped && ReadValue(kind, m) == Single(m.untyped.value)
    ensures kind == Summary ==> SameSpread(m.summary.value, n.summary.value)
    ensures kind == Histogram || kind == GaugeHistogram ==> SameSpread(m.histogram.value, n.histogram.value)
  {
    if kind == Summary {
      ReadSpreadLossless(m.summary.value, n.summary.value);
    } else if kind == Histogram || kind == GaugeHistogram {
      ReadSpreadLossless(m.histogram.value, n.histogram.value);
    }
    hide ReadSpread, SameSpread;
  }

  /** Equal up to the order of points, where a nil point counts as a zero one. */
  ghost predicate SameSpread(d: Distribution, e: Distribution) {
    && d.count == e.count && d.sum == e.sum
    && forall p :: Occurs(d.points, p) == Occurs(e.points, p)
  }

  function Occurs(ps: seq<Option<Point>>, p: Point): nat {
    multiset(ps)[Some(p)] + if p == Point(0.0, 0.0) then multiset(ps)[None] else 0
  }

  lemma {:induction false} ReadPointsCount(ps: seq<Option<Point>>, p: Point)
    ensures multiset(ReadPoints(ps))[p] == Occurs(ps, p)
    decreases |ps|
  {
    if ps != [] {
      var init, last := ps[..|ps| - 1], ps[|ps| - 1];
      ReadPointsCount(init, p);
      assert ps == init + [last];
      CountSnoc(init, last, Some(p));
      CountSnoc(init, last, None);
      CountSnoc(ReadPoints(init), ReadPoint(last), p);
    }
  }

  lemma ReadSpreadLossless(d: Distribution, e: Distribution)
    requires ReadSpread(d) == ReadSpread(e)
    ensures SameSpread(d, e)
  {
    forall p
      ensures Occurs(d.points, p) == Occurs(e.points, p)
    {
      ReadPointsCount(d.points, p);
      ReadPointsCount(e.points, p);
    }
  }

  lemma SpreadsAgree(d: Distribution)
    ensures ReadSpread(d) == ConstSpread(d) <==> Clean(d.points)
  {
    PointsAgree(d.points);
    hide Clean, ReadPoints, MapPoints, PointMap;
  }

  lemma ValuesAgree(kind: Kind, m: Metric)
    requires HasValidValue(kind, Some(m))
    ensures ReadValue(kind, m) == ConstValue(kind, m) <==> CleanValue(kind, m)
  {
    if kind == Summary {
      SpreadsAgree(m.summary.value);
    } else if kind == Histogram || kind == GaugeHistogram {
      SpreadsAgree(m.histogram.value);
    }
    hide Clean, ReadSpread, ConstSpread;
  }

  // ----- The sample a metric stands for -----

  function Labels(s: Schema, m: Metric): multiset<LabelPair> {
    multiset(Variable(m.labels, s.constLabels)) + multiset(ConstPairs(s.constLabels))
  }

  function Wanted(s: Schema, help: string, kind: Kind, m: Metric): Sample
    requires HasValidValue(kind, Some(m))
  {
    Sample(s.name, help, ExportKind(kind), Labels(s, m), ReadValue(kind, m), None)
  }

  /** One sample per metric that has a value of the family's type, in order. */
  function WantedAll(s: Schema, help: string, kind: Kind, ms: seq<Option<Metric>>): seq<Sample> {
    if ms == [] then []
    else
      var init := WantedAll(s, help, kind, ms[..|ms| - 1]);
      var m := ms[|ms| - 1];
      if HasValidValue(kind, m) then init + [Wanted(s, help, kind, m.value)] else init
  }

  predicate EmptyFamily(kind: Option<Kind>, name: string, ms: seq<Option<Metric>>) {
    kind.None? || name == "" || ms == []
  }

  // ----- The in-place path -----

  /** What the text encoder writes for a family's metrics. */
  function Encoded(name: string, help: string, kind: Kind, ms: seq<Option<Metric>>): seq<Sample>
    requires forall i :: 0 <= i < |ms| ==> HasValidValue(kind, ms[i])
  {
    if ms == [] then []
    else
      assert HasValidValue(kind, ms[|ms| - 1]);
      var m := ms[|ms| - 1].value;
      Encoded(name, help, kind, ms[..|ms| - 1])
      + [Sample(name, help, kind, multiset(ReadLabels(m.labels)), ReadValue(kind, m), m.timestampMs)]
  }

  lemma NoLabels()
    ensures ReadLabels([]) == []
  {
  }

  lemma ReadLabelsSnoc(r: seq<Option<LabelPair>>, l: LabelPair)
    ensures ReadLabels(r + [Some(l)]) == ReadLabels(r) + [l]
  {
    assert (r + [Some(l)])[..|r|] == r;
  }

  /** Each given pair that no constant label replaces, as often as it was given, and `pairs`. */
  ghost predicate LabelsAre(r: seq<LabelPair>, labels: seq<Option<LabelPair>>, constLabels: map<string, string>, pairs: seq<LabelPair>) {
    forall l :: multiset(r)[l] == Times(labels, constLabels, l) + multiset(pairs)[l]
  }

  lemma VariableLabels(labels: seq<Option<LabelPair>>, constLabels: map<string, string>, pairs: seq<LabelPair>)
    ensures LabelsAre(Variable(labels, constLabels) + pairs, labels, constLabels, pairs)
  {
    var v := Variable(labels, constLabels);
    hide Variable, Times;
    forall l
      ensures multiset(v + pairs)[l] == Times(labels, constLabels, l) + multiset(pairs)[l]
    {
      VariableCount(labels, constLabels, l);
      assert multiset(v + pairs) == multiset(v) + multiset(pairs);
    }
  }

  /** slices.DeleteFunc on the labels, then the constant labels appended. */
  method TransformLabels(labels: seq<Option<LabelPair>>, constLabels: map<string, string>, pairs: seq<LabelPair>)
    returns (r: seq<Option<LabelPair>>)
    ensures ReadLabels(r) == Variable(labels, constLabels) + pairs
    ensures LabelsAre(ReadLabels(r), labels, constLabels, pairs)
  {
    hide ReadLabels, LabelsAre;
    r := [];
    NoLabels();
    var i := 0;
    while i < |labels|
      invariant 0 <= i <= |labels|
      invariant ReadLabels(r) == Variable(labels[..i], constLabels)
    {
      assert labels[..i + 1][..i] == labels[..i];
      if labels[i].Some? && labels[i].value.name !in constLabels {
        ReadLabelsSnoc(r, labels[i].value);
        r := r + [labels[i]];
      }
      i := i + 1;
    }
    assert labels[..i] == labels;
    var j := 0;
    while j < |pairs|
      invariant 0 <= j <= |pairs|
      invariant ReadLabels(r) == Variable(labels, constLabels) + pairs[..j]
    {
      ReadLabelsSnoc(r, pairs[j]);
      r := r + [Some(pairs[j])];
      j := j + 1;
    }
    assert pairs[..j] == pairs;
    VariableLabels(labels, constLabels, pairs);
  }

  lemma Rewritten(kind: Kind, m: Metric, labels: seq<Option<LabelPair>>)
    requires HasValidValue(kind, Some(m))
    ensures var m' := m.(labels := labels, timestampMs := None);
            HasValidValue(kind, Some(m')) && ReadValue(kind, m') == ReadValue(kind, m)
  {
  }

  /** `m'` is `m` with the constant labels in place of those of the same names and no timestamp. */
  ghost predicate RewrittenMetric(constLabels: map<string, string>, m: Metric, m': Option<Metric>) {
    && m'.Some? && m'.value == m.(labels := m'.value.labels, timestampMs := None)
    && forall l :: multiset(ReadLabels(m'.value.labels))[l]
                   == Times(m.labels, constLabels, l) + if l.name in constLabels && constLabels[l.name] == l.value then 1 else 0
  }

  lemma ConstPairsAt(constLabels: map<string, string>, l: LabelPair)
    ensures multiset(ConstPairs(constLabels))[l] == if l.name in constLabels && constLabels[l.name] == l.value then 1 else 0
  {
  }

  lemma RewrittenIs(constLabels: map<string, string>, pairs: seq<LabelPair>, m: Metric, labels: seq<Option<LabelPair>>)
    requires multiset(pairs) == multiset(ConstPairs(constLabels))
    requires LabelsAre(ReadLabels(labels), m.labels, constLabels, pairs)
    ensures RewrittenMetric(constLabels, m, Some(m.(labels := labels, timestampMs := None)))
  {
    hide ConstPairs, ReadLabels, Times;
    forall l
      ensures multiset(ReadLabels(labels))[l]
              == Times(m.labels, constLabels, l) + if l.name in constLabels && constLabels[l.name] == l.value then 1 else 0
    {
      ConstPairsAt(constLabels, l);
    }
  }

  ghost predicate RewrittenMetrics(constLabels: map<string, string>, ms: seq<Metric>, r: seq<Option<Metric>>) {
    |r| == |ms| && forall i :: 0 <= i < |r| ==> RewrittenMetric(constLabels, ms[i], r[i])
  }

  /** What the text encoder writes for a rewritten metric is what the metric stands for. */
  lemma RewrittenReads(s: Schema, kind: Kind, m: Metric, m': Option<Metric>)
    requires RewrittenMetric(s.constLabels, m, m') && HasValidValue(kind, Some(m))
    ensures HasValidValue(kind, m') && ReadValue(kind, m'.value) == ReadValue(kind, m)
    ensures multiset(ReadLabels(m'.value.labels)) == Labels(s, m)
  {
    Rewritten(kind, m, m'.value.labels);
    hide ConstPairs, ReadLabels, Times, Variable, HasValidValue, ReadValue;
    forall l
      ensures multiset(ReadLabels(m'.value.labels))[l] == Labels(s, m)[l]
    {
      VariableCount(m.labels, s.constLabels, l);
      ConstPairsAt(s.constLabels, l);
    }
  }

  lemma RewrittenInit(constLabels: map<string, string>, ms: seq<Metric>, m: Metric, r: seq<Option<Metric>>)
    requires RewrittenMetrics(constLabels, ms + [m], r)
    ensures RewrittenMetrics(constLabels, ms, r[..|ms|]) && RewrittenMetric(constLabels, m, r[|ms|])
  {
    hide RewrittenMetric;
    assert forall i :: 0 <= i < |ms| ==> (ms + [m])[i] == ms[i];
    assert (ms + [m])[|ms|] == m;
  }

  lemma WithValueSnoc(kind: Kind, ms: seq<Option<Metric>>, m: Option<Metric>)
    ensures WithValue(kind, ms + [m]) == WithValue(kind, ms) + if HasValidValue(kind, m) then [m.value] else []
  {
    assert (ms + [m])[..|ms|] == ms;
  }

  lemma EncodedSnoc(s: Schema, help: string, kind: Kind, m: Metric, r: seq<Option<Metric>>, m': Option<Metric>)
    requires kind == ExportKind(kind) && HasValidValue(kind, Some(m)) && RewrittenMetric(s.constLabels, m, m')
    requires forall i :: 0 <= i < |r| ==> HasValidValue(kind, r[i])
    ensures HasValidValue(kind, m') && Encoded(s.name, help, kind, r + [m']) == Encoded(s.name, help, kind, r) + [Wanted(s, help, kind, m)]
  {
    RewrittenReads(s, kind, m, m');
    RewrittenStamp(s.constLabels, m, m');
    hide ReadLabels, ReadValue, Labels, HasValidValue, RewrittenMetric;
    assert (r + [m'])[..|r|] == r;
  }

  lemma WantedSnoc(s: Schema, help: string, kind: Kind, ms: seq<Option<Metric>>, m: Option<Metric>)
    ensures WantedAll(s, help, kind, ms + [m])
            == WantedAll(s, help, kind, ms) + if HasValidValue(kind, m) then [Wanted(s, help, kind, m.value)] else []
  {
    assert (ms + [m])[..|ms|] == ms;
  }

  lemma NothingWanted(s: Schema, help: string, kind: Kind)
    ensures WithValue(kind, []) == [] && WantedAll(s, help, kind, []) == [] && Encoded(s.name, help, kind, []) == []
  {
  }

  lemma {:induction false} EncodedIsWanted(s: Schema, help: string, kind: Kind, ms: seq<Option<Metric>>, r: seq<Option<Metric>>)
    requires kind == ExportKind(kind) && RewrittenMetrics(s.constLabels, WithValue(kind, ms), r)
    ensures forall i :: 0 <= i < |r| ==> HasValidValue(kind, r[i])
    ensures Encoded(s.name, help, kind, r) == WantedAll(s, help, kind, ms) && |r| == |WantedAll(s, help, kind, ms)|
    decreases |ms|, 0
  {
    NilHasNone(kind);
    hide *;
    RewrittenSize(s.constLabels, WithValue(kind, ms), r);
    if ms == [] {
      NothingWanted(s, help, kind);
      assert r == [];
    } else {
      var init, last := ms[..|ms| - 1], ms[|ms| - 1];
      assert ms == init + [last];
      WithValueSnoc(kind, init, last);
      WantedSnoc(s, help, kind, init, last);
      if HasValidValue(kind, last) {
        EncodedOneMore(s, help, kind, init, last.value, r);
      } else {
        assert WithValue(kind, ms) == WithValue(kind, init);
        EncodedIsWanted(s, help, kind, init, r);
      }
    }
  }

  lemma {:induction false} EncodedOneMore(s: Schema, help: string, kind: Kind, ms: seq<Option<Metric>>, m: Metric, r: seq<Option<Metric>>)
    requires kind == ExportKind(kind) && HasValidValue(kind, Some(m))
    requires RewrittenMetrics(s.constLabels, WithValue(kind, ms) + [m], r)
    ensures forall i :: 0 <= i < |r| ==> HasValidValue(kind, r[i])
    ensures Encoded(s.name, help, kind, r) == WantedAll(s, help, kind, ms) + [Wanted(s, help, kind, m)]
    ensures |r| == |WantedAll(s, help, kind, ms)| + 1
    decreases |ms|, 1
  {
    hide *;
    var k := |WithValue(kind, ms)|;
    RewrittenSize(s.constLabels, WithValue(kind, ms) + [m], r);
    RewrittenInit(s.constLabels, WithValue(kind, ms), m, r);
    EncodedIsWanted(s, help, kind, ms, r[..k]);
    EncodedSnoc(s, help, kind, m, r[..k], r[k]);
    assert r == r[..k] + [r[k]];
    forall i | 0 <= i < |r|
      ensures HasValidValue(kind, r[i])
    {
      if i < k { assert r[i] == r[..k][i]; }
    }
  }

  lemma RewrittenSize(constLabels: map<string, string>, ms: seq<Metric>, r: seq<Option<Metric>>)
    requires RewrittenMetrics(constLabels, ms, r)
    ensures |r| == |ms|
  {
  }

  lemma RewrittenStamp(constLabels: map<string, string>, m: Metric, m': Option<Metric>)
    requires RewrittenMetric(constLabels, m, m')
    ensures m'.Some? && m'.value.timestampMs.None?
  {
  }

  /** The metrics that have a value, each with its labels rewritten and its timestamp dropped. */
  method TransformMetrics(constLabels: map<string, string>, pairs: seq<LabelPair>, kind: Kind, ms: seq<Option<Metric>>)
    returns (r: seq<Option<Metric>>)
    requires multiset(pairs) == multiset(ConstPairs(constLabels))
    ensures RewrittenMetrics(constLabels, WithValue(kind, ms), r)
  {
    NilHasNone(kind);
    hide HasValidValue, ConstPairs, ReadLabels, Variable, RewrittenMetric, LabelsAre;
    r := [];
    var i := 0;
    while i < |ms|
      invariant 0 <= i <= |ms|
      invariant RewrittenMetrics(constLabels, WithValue(kind, ms[..i]), r)
    {
      assert ms[..i + 1][..i] == ms[..i];
      if HasValidValue(kind, ms[i]) {
        var labels := TransformLabels(ms[i].value.labels, constLabels, pairs);
        RewrittenIs(constLabels, pairs, ms[i].value, labels);
        r := r + [Some(ms[i].value.(labels := labels, timestampMs := None))];
      }
      i := i + 1;
    }
    assert ms[..i] == ms;
  }

  lemma {:induction false} UnknownWanted(s: Schema, help: string, ms: seq<Option<Metric>>)
    ensures WantedAll(s, help, Unknown, ms) == []
  {
    if ms != [] { UnknownWanted(s, help, ms[..|ms| - 1]); }
  }

  lemma {:induction false} KindsWanted(s: Schema, help: string, kind: Kind, ms: seq<Option<Metric>>)
    ensures WantedAll(s, help, ExportKind(kind), ms) == WantedAll(s, help, kind, ms)
  {
    if ms != [] { KindsWanted(s, help, kind, ms[..|ms| - 1]); }
  }

  lemma {:induction false} KindsWithValue(kind: Kind, ms: seq<Option<Metric>>)
    ensures WithValue(ExportKind(kind), ms) == WithValue(kind, ms)
  {
    if ms != [] { KindsWithValue(kind, ms[..|ms| - 1]); }
  }

  /** The metrics with a value are kept in order with only their labels and timestamps changed,
      and the encoder writes the wanted samples for them. */
  ghost predicate Transformed(s: Schema, help: string, kind: Kind, ms: seq<Option<Metric>>, r: seq<Option<Metric>>) {
    && RewrittenMetrics(s.constLabels, WithValue(kind, ms), r)
    && (forall i :: 0 <= i < |r| ==> HasValidValue(ExportKind(kind), r[i]))
    && Encoded(s.name, help, ExportKind(kind), r) == WantedAll(s, help, kind, ms)
  }

  lemma FamilyIsWanted(s: Schema, help: string, kind: Kind, ms: seq<Option<Metric>>, r: seq<Option<Metric>>)
    requires RewrittenMetrics(s.constLabels, WithValue(ExportKind(kind), ms), r)
    ensures Transformed(s, help, kind, ms, r) && |r| == |WantedAll(s, help, kind, ms)|
  {
    KindsWithValue(kind, ms);
    KindsWanted(s, help, kind, ms);
    EncodedIsWanted(s, help, ExportKind(kind), ms, r);
    hide WithValue, WantedAll, Encoded, RewrittenMetrics, HasValidValue;
  }

  lemma PairsOk(s: Schema)
    requires SchemaOk(s)
    ensures var pairs := if s.constLabelPairs.Some? then s.constLabelPairs.value else SortedLabelPairs(s.constLabels);
            multiset(pairs) == multiset(ConstPairs(s.constLabels))
  {
    SortedPairsAt(s.constLabels, s.constLabels.Keys);
  }

  /** The family is kept exactly when it has something to export, and then the encoder
      writes exactly the wanted samples. */
  method TransformMetricFamily(c: Collector, mf: MetricFamily) returns (keep: bool)
    requires SchemaOk(Resolve(c, mf.name))
    modifies mf
    ensures keep <==> !EmptyFamily(old(mf.kind), old(mf.name), old(mf.metrics))
                      && WantedAll(Resolve(c, old(mf.name)), old(mf.help), old(mf.kind).value, old(mf.metrics)) != []
    ensures keep ==>
              && mf.name == Resolve(c, old(mf.name)).name && mf.help == old(mf.help) && mf.kind == Some(ExportKind(old(mf.kind).value))
              && Transformed(Resolve(c, old(mf.name)), mf.help, old(mf.kind).value, old(mf.metrics), mf.metrics)
  {
    if EmptyFamily(mf.kind, mf.name, mf.metrics) {
      return false;
    }
    var kind := mf.kind.value;
    hide HasValidValue, WantedAll, WithValue, RewrittenMetrics, Transformed, Resolve, SchemaOk, SortedLabelPairs, ConstPairs;
    match kind {
      case GaugeHistogram =>
        mf.kind := Some(Histogram);
        kind := Histogram;
      case Unknown =>
        UnknownWanted(Resolve(c, mf.name), mf.help, mf.metrics);
        return false;
      case _ =>
    }
    var s := Resolve(c, mf.name);
    mf.name := s.name;
    var pairs := if s.constLabelPairs.Some? then s.constLabelPairs.value else SortedLabelPairs(s.constLabels);
    PairsOk(s);
    ghost var given := mf.metrics;
    mf.metrics := TransformMetrics(s.constLabels, pairs, kind, mf.metrics);
    FamilyIsWanted(s, mf.help, old(mf.kind).value, given, mf.metrics);
    return |mf.metrics| > 0;
  }

  // ----- The registry path -----

  /** The client library's checks of metric and label names. */
  datatype Library = Library(validName: string -> bool, validLabel: string -> bool)

  datatype Desc = Desc(name: string, help: string, names: seq<string>, constLabels: map<string, string>, ok: bool)

  function ToSet(names: seq<string>): set<string> {
    set n | n in names
  }

  /** The library accepts a descriptor when all names are valid and, counted with the
      constant labels, distinct. */
  function NewDesc(lib: Library, name: string, help: string, names: seq<string>, constLabels: map<string, string>): Desc {
    Desc(name, help, names, constLabels,
         && lib.validName(name)
         && (forall k :: k in constLabels ==> lib.validLabel(k))
         && (forall n :: n in names ==> lib.validLabel(n))
         && |constLabels.Keys + ToSet(names)| == |constLabels.Keys| + |names|)
  }

  function NewConstMetric(desc: Desc, kind: Kind, m: Metric, values: seq<string>): Option<Sample>
    requires HasValidValue(kind, Some(m))
  {
    if !desc.ok || |values| != |desc.names| then None
    else
      Some(Sample(desc.name, desc.help, ExportKind(kind),
                  multiset(Zip(desc.names, values)) + multiset(ConstPairs(desc.constLabels)), ConstValue(kind, m), None))
  }

  predicate Distinct(names: seq<string>) {
    forall i, j :: 0 <= i < j < |names| ==> names[i] != names[j]
  }

  predicate Accepted(lib: Library, s: Schema, m: Metric) {
    && lib.validName(s.name)
    && (forall k :: k in s.constLabels ==> lib.validLabel(k))
    && (forall n :: n in Names(Variable(m.labels, s.constLabels)) ==> lib.validLabel(n))
    && Distinct(Names(Variable(m.labels, s.constLabels)))
  }

  lemma {:induction false} DistinctNames(keys: set<string>, names: seq<string>)
    requires forall n :: n in names ==> n !in keys
    ensures |keys + ToSet(names)| <= |keys| + |names|
    ensures |keys + ToSet(names)| == |keys| + |names| <==> Distinct(names)
  {
    if names == [] {
      assert keys + ToSet(names) == keys;
    } else {
      var init, n := names[..|names| - 1], names[|names| - 1];
      DistinctNames(keys, init);
      assert names == init + [n];
      assert keys + ToSet(names) == (keys + ToSet(init)) + {n};
      assert Distinct(names) <==> Distinct(init) && n !in init;
    }
  }

  lemma VariableNames(s: Schema, m: Metric)
    ensures forall n :: n in Names(Variable(m.labels, s.constLabels)) ==> n !in s.constLabels.Keys
  {
    hide Variable;
  }

  lemma DescAccepts(lib: Library, s: Schema, help: string, m: Metric)
    ensures var names := Names(Variable(m.labels, s.constLabels));
            NewDesc(lib, s.name, help, names, s.constLabels).ok <==> Accepted(lib, s, m)
  {
    VariableNames(s, m);
    DistinctNames(s.constLabels.Keys, Names(Variable(m.labels, s.constLabels)));
    hide ToSet, Names, Variable, Distinct;
  }

  function RegistryAll(lib: Library, s: Schema, help: string, kind: Kind, ms: seq<Option<Metric>>): seq<Sample> {
    if ms == [] then []
    else
      var init := RegistryAll(lib, s, help, kind, ms[..|ms| - 1]);
      var m := ms[|ms| - 1];
      if HasValidValue(kind, m) && Accepted(lib, s, m.value) then
        init + [Wanted(s, help, kind, m.value).(value := ConstValue(kind, m.value))]
      else init
  }

  method FilterVariableLabels(rawLabels: seq<Option<LabelPair>>, constLabels: map<string, string>) returns (labels: seq<LabelPair>)
    ensures labels == Variable(rawLabels, constLabels)
    ensures LabelsAre(labels, rawLabels, constLabels, [])
  {
    labels := [];
    var i := 0;
    while i < |rawLabels|
      invariant 0 <= i <= |rawLabels|
      invariant labels == Variable(rawLabels[..i], constLabels)
    {
      assert rawLabels[..i + 1][..i] == rawLabels[..i];
      if rawLabels[i].Some? && rawLabels[i].value.name !in constLabels {
        labels := labels + [rawLabels[i].value];
      }
      i := i + 1;
    }
    assert rawLabels[..i] == rawLabels;
    VariableLabels(rawLabels, constLabels, []);
    assert labels + [] == labels;
  }

  method MatchesLabelNames(names: seq<string>, labels: seq<LabelPair>) returns (same: bool)
    ensures same <==> names == Names(labels)
  {
    if |names| != |labels| {
      return false;
    }
    var i := 0;
    while i < |labels|
      invariant 0 <= i <= |labels|
      invariant forall j :: 0 <= j < i ==> names[j] == labels[j].name
    {
      if names[i] != labels[i].name {
        assert names[i] != Names(labels)[i];
        return false;
      }
      i := i + 1;
    }
    return true;
  }

  /** The pairs of a metric built from a descriptor with its own label names are its labels. */
  lemma ZipNamesValues(labels: seq<LabelPair>)
    ensures Zip(Names(labels), Values(labels)) == labels
  {
  }

  lemma ConstMetricIs(lib: Library, s: Schema, help: string, kind: Kind, m: Metric)
    requires HasValidValue(kind, Some(m))
    ensures var labels := Variable(m.labels, s.constLabels);
            var desc := NewDesc(lib, s.name, help, Names(labels), s.constLabels);
            NewConstMetric(desc, kind, m, Values(labels))
            == if Accepted(lib, s, m) then Some(Wanted(s, help, kind, m).(value := ConstValue(kind, m))) else None
  {
    DescAccepts(lib, s, help, m);
    ZipNamesValues(Variable(m.labels, s.constLabels));
    hide Variable, Accepted, ConstPairs, ToSet, Zip, ConstValue, ReadValue, HasValidValue;
  }

  /** Every accepted metric is emitted once, in order; the cached descriptor always carries
      the label names of the metric it is used for. */
  method EmitMetricFamily(lib: Library, c: Collector, mf: MetricFamily) returns (ch: seq<Sample>)
    ensures EmptyFamily(mf.kind, mf.name, mf.metrics) ==> ch == []
    ensures !EmptyFamily(mf.kind, mf.name, mf.metrics) ==>
              ch == RegistryAll(lib, Resolve(c, mf.name), mf.help, mf.kind.value, mf.metrics)
  {
    ch := [];
    if EmptyFamily(mf.kind, mf.name, mf.metrics) {
      return;
    }
    hide Resolve, Variable, LabelsAre, Accepted, ConstPairs, ToSet, Zip, ConstValue, ReadValue, NewConstMetric, HasValidValue;
    var help, kind, ms := mf.help, mf.kind.value, mf.metrics;
    var s := Resolve(c, mf.name);
    var cachedDesc: Option<Desc>, cachedLabelNames: seq<string> := None, [];
    var i := 0;
    while i < |ms|
      invariant 0 <= i <= |ms|
      invariant cachedDesc.Some? ==> cachedDesc.value == NewDesc(lib, s.name, help, cachedLabelNames, s.constLabels)
      invariant ch == RegistryAll(lib, s, help, kind, ms[..i])
    {
      assert ms[..i + 1][..i] == ms[..i];
      if HasValidValue(kind, ms[i]) {
        var metric := ms[i].value;
        var labels := FilterVariableLabels(metric.labels, s.constLabels);
        var same := MatchesLabelNames(cachedLabelNames, labels);
        if cachedDesc.None? || !same {
          cachedLabelNames := Names(labels);
          cachedDesc := Some(NewDesc(lib, s.name, help, cachedLabelNames, s.constLabels));
        }
        var promMetric := NewConstMetric(cachedDesc.value, kind, metric, Values(labels));
        ConstMetricIs(lib, s, help, kind, metric);
        if promMetric.Some? {
          ch := ch + [promMetric.value];
        }
      }
      i := i + 1;
    }
    assert ms[..i] == ms;
  }

  // ----- Agreement -----

  /** Every metric with a value is accepted by the library and has no nil or repeated bound. */
  predicate Exportable(lib: Library, s: Schema, kind: Kind, ms: seq<Option<Metric>>) {
    forall i :: 0 <= i < |ms| && HasValidValue(kind, ms[i]) ==> Accepted(lib, s, ms[i].value) && CleanValue(kind, ms[i].value)
  }

  lemma {:induction false} RegistryFewer(lib: Library, s: Schema, help: string, kind: Kind, ms: seq<Option<Metric>>)
    ensures |RegistryAll(lib, s, help, kind, ms)| <= |WantedAll(s, help, kind, ms)|
  {
    if ms != [] {
      hide Accepted, HasValidValue;
      RegistryFewer(lib, s, help, kind, ms[..|ms| - 1]);
    }
  }

  lemma SnocEqual<T>(a: seq<T>, x: T, b: seq<T>, y: T)
    ensures a + [x] == b + [y] <==> a == b && x == y
  {
    if a + [x] == b + [y] {
      assert a == (a + [x])[..|a|] && b == (b + [y])[..|b|];
      assert x == (a + [x])[|a|] && y == (b + [y])[|b|];
    }
  }

  lemma ExportableSnoc(lib: Library, s: Schema, kind: Kind, ms: seq<Option<Metric>>)
    requires ms != []
    ensures var init, m := ms[..|ms| - 1], ms[|ms| - 1];
            Exportable(lib, s, kind, ms) <==>
            Exportable(lib, s, kind, init) && (HasValidValue(kind, m) ==> Accepted(lib, s, m.value) && CleanValue(kind, m.value))
  {
    hide Accepted, HasValidValue, CleanValue;
    assert ms == ms[..|ms| - 1] + [ms[|ms| - 1]];
  }

  /** The two paths export the same samples exactly when every metric is exportable. */
  lemma {:induction false} PathsAgree(lib: Library, s: Schema, help: string, kind: Kind, ms: seq<Option<Metric>>)
    ensures RegistryAll(lib, s, help, kind, ms) == WantedAll(s, help, kind, ms) <==> Exportable(lib, s, kind, ms)
  {
    if ms != [] {
      var init, m := ms[..|ms| - 1], ms[|ms| - 1];
      PathsAgree(lib, s, help, kind, init);
      RegistryFewer(lib, s, help, kind, init);
      ExportableSnoc(lib, s, kind, ms);
      hide Exportable, Accepted, HasValidValue, CleanValue, ConstValue, ReadValue, Labels;
      if HasValidValue(kind, m) {
        ValuesAgree(kind, m.value);
        var wanted := Wanted(s, help, kind, m.value);
        SnocEqual(RegistryAll(lib, s, help, kind, init), wanted.(value := ConstValue(kind, m.value)),
                  WantedAll(s, help, kind, init), wanted);
      }
    }
  }

  /** A histogram that repeats a bound, as a scraped text may: the in-place path writes both
      buckets, the registry path only the later one. */
  lemma RepeatedBoundExample(lib: Library, s: Schema, help: string)
    ensures var buckets := [Some(Point(1.0, 2.0)), Some(Point(1.0, 3.0))];
            var m := Metric([], None, None, None, None, Some(Distribution(3, 4.0, buckets)), None);
            RegistryAll(lib, s, help, Histogram, [Some(m)]) != WantedAll(s, help, Histogram, [Some(m)])
  {
    var buckets := [Some(Point(1.0, 2.0)), Some(Point(1.0, 3.0))];
    var m := Metric([], None, None, None, None, Some(Distribution(3, 4.0, buckets)), None);
    var ms := [Some(m)];
    assert buckets[0].value.at == buckets[1].value.at && !Clean(buckets);
    assert HasValidValue(Histogram, ms[0]) && !CleanValue(Histogram, ms[0].value);
    PathsAgree(lib, s, help, Histogram, ms);
    hide RegistryAll, WantedAll, Accepted, CleanValue, HasValidValue;
    assert !Exportable(lib, s, Histogram, ms);
  }
}

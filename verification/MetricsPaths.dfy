/** The two export paths of a scraped metric family: the in-place transform that feeds the
    text encoder, and the registry path with its cached descriptors (pkg/metrics/metrics.go). */
module MetricsPaths {
  import opened GoStrings
  import opened SortedStrings

  type Number = real

  datatype LabelPair = LabelPair(name: string, value: string)

  datatype Kind = Counter | Gauge | Untyped | Summary | Histogram | GaugeHistogram | Unknown

  /** A summary's quantile or a histogram's bucket. */
  datatype Point = Point(at: Number, value: Number)

  datatype Distribution = Distribution(count: nat, sum: Number, points: seq<Option<Point>>)

  datatype Metric = Metric(
    labels: seq<Option<LabelPair>>,
    counter: Option<Number>, gauge: Option<Number>, untyped: Option<Number>,
    summary: Option<Distribution>, histogram: Option<Distribution>,
    timestampMs: Option<int>)

  class MetricFamily {
    var name: string
    var help: string
    var kind: Option<Kind>
    var metrics: seq<Option<Metric>>
  }

  // ----- Values -----

  predicate HasValidValue(kind: Kind, metric: Option<Metric>) {
    metric.Some? &&
    match kind
    case Counter => metric.value.counter.Some?
    case Gauge => metric.value.gauge.Some?
    case Untyped => metric.value.untyped.Some?
    case Summary => metric.value.summary.Some?
    case Histogram => metric.value.histogram.Some?
    case GaugeHistogram => metric.value.histogram.Some?
    case Unknown => false
  }

  /** The metrics that have a value of the family's type, in order. */
  function WithValue(kind: Kind, ms: seq<Option<Metric>>): (r: seq<Metric>)
    ensures forall i :: 0 <= i < |r| ==> HasValidValue(kind, Some(r[i]))
  {
    if ms == [] then []
    else WithValue(kind, ms[..|ms| - 1]) + if HasValidValue(kind, ms[|ms| - 1]) then [ms[|ms| - 1].value] else []
  }

  lemma {:induction false} WithValueConcat(kind: Kind, a: seq<Option<Metric>>, b: seq<Option<Metric>>)
    ensures WithValue(kind, a + b) == WithValue(kind, a) + WithValue(kind, b)
    decreases |b|
  {
    hide HasValidValue;
    if b == [] {
      assert a + b == a;
    } else {
      var k := |b| - 1;
      WithValueConcat(kind, a, b[..k]);
      assert (a + b)[..|a + b| - 1] == a + b[..k];
    }
  }

  lemma {:induction false} WithValueCount(kind: Kind, ms: seq<Option<Metric>>, m: Metric)
    ensures multiset(WithValue(kind, ms))[m] == if HasValidValue(kind, Some(m)) then multiset(ms)[Some(m)] else 0
    decreases |ms|
  {
    NilHasNone(kind);
    hide HasValidValue;
    if ms != [] {
      var k := |ms| - 1;
      var init, last := ms[..k], ms[k];
      WithValueCount(kind, init, m);
      assert ms == init + [last];
      CountSnoc(init, last, Some(m));
      if last.Some? {
        CountSnoc(WithValue(kind, init), last.value, m);
      }
    }
  }

  lemma NilHasNone(kind: Kind)
    ensures !HasValidValue(kind, None)
  {
  }

  datatype Value = Single(v: Number) | Spread(count: nat, sum: Number, points: multiset<Point>)

  /** Reading a nil point through its getters gives zeros. */
  function ReadPoint(p: Option<Point>): Point {
    if p.Some? then p.value else Point(0.0, 0.0)
  }

  function ReadPoints(ps: seq<Option<Point>>): (r: seq<Point>)
    ensures |r| == |ps|
  {
    if ps == [] then [] else ReadPoints(ps[..|ps| - 1]) + [ReadPoint(ps[|ps| - 1])]
  }

  /** The quantile and bucket maps of the registry path: nil points are skipped, the last
      point of a bound wins. */
  function PointMap(ps: seq<Option<Point>>): map<Number, Number> {
    if ps == [] then map[]
    else
      var m := PointMap(ps[..|ps| - 1]);
      var p := ps[|ps| - 1];
      if p.None? then m else m[p.value.at := p.value.value]
  }

  function MapPoints(m: map<Number, Number>): set<Point> {
    set k | k in m :: Point(k, m[k])
  }

  predicate Clean(ps: seq<Option<Point>>) {
    && (forall i :: 0 <= i < |ps| ==> ps[i].Some?)
    && (forall i, j :: 0 <= i < j < |ps| ==> ps[i].value.at != ps[j].value.at)
  }

  lemma MapPointsNew(m: map<Number, Number>, k: Number, v: Number)
    requires k !in m
    ensures MapPoints(m[k := v]) == MapPoints(m) + {Point(k, v)} && Point(k, v) !in MapPoints(m)
  {
    var m' := m[k := v];
    forall p
      ensures p in MapPoints(m') <==> p in MapPoints(m) + {Point(k, v)}
    {
      assert p in MapPoints(m') <==> p.at in m' && p == Point(p.at, m'[p.at]);
      assert p in MapPoints(m) <==> p.at in m && p == Point(p.at, m[p.at]);
    }
  }

  lemma MapPointsOld(m: map<Number, Number>, k: Number, v: Number)
    requires k in m
    ensures |MapPoints(m[k := v])| == |MapPoints(m)|
  {
    var rest := m - {k};
    MapPointsNew(rest, k, v);
    MapPointsNew(rest, k, m[k]);
    assert rest[k := m[k]] == m && rest[k := v] == m[k := v];
  }

  lemma {:induction false} PointMapKeys(ps: seq<Option<Point>>, k: Number)
    ensures k in PointMap(ps) <==> exists i :: 0 <= i < |ps| && ps[i].Some? && ps[i].value.at == k
  {
    if ps != [] {
      var init := ps[..|ps| - 1];
      PointMapKeys(init, k);
      if i :| 0 <= i < |init| && init[i].Some? && init[i].value.at == k {
        assert ps[i] == init[i];
      }
    }
  }

  /** Adding one more point to a list. */
  lemma CleanSnoc(ps: seq<Option<Point>>)
    requires ps != []
    ensures var init, p := ps[..|ps| - 1], ps[|ps| - 1];
            Clean(ps) <==> Clean(init) && p.Some? && p.value.at !in PointMap(init)
  {
    var init, p := ps[..|ps| - 1], ps[|ps| - 1];
    assert ps == init + [p];
    if p.Some? { PointMapKeys(init, p.value.at); }
  }

  lemma {:induction false} PointsCount(ps: seq<Option<Point>>)
    ensures |MapPoints(PointMap(ps))| <= |ps|
    ensures |MapPoints(PointMap(ps))| == |ps| <==> Clean(ps)
  {
    if ps == [] {
      assert MapPoints(map[]) == {};
    } else {
      var init, p := ps[..|ps| - 1], ps[|ps| - 1];
      PointsCount(init);
      CleanSnoc(ps);
      hide Clean, MapPoints;
      if p.Some? {
        if p.value.at in PointMap(init) {
          MapPointsOld(PointMap(init), p.value.at, p.value.value);
        } else {
          MapPointsNew(PointMap(init), p.value.at, p.value.value);
        }
      }
    }
  }

  lemma {:induction false} CleanPoints(ps: seq<Option<Point>>)
    requires Clean(ps)
    ensures multiset(ReadPoints(ps)) == multiset(MapPoints(PointMap(ps)))
  {
    if ps != [] {
      var init, p := ps[..|ps| - 1], ps[|ps| - 1];
      CleanSnoc(ps);
      CleanPoints(init);
      hide Clean;
      MapPointsNew(PointMap(init), p.value.at, p.value.value);
    }
  }

  /** Both readings of a distribution agree exactly when no point is nil and no bound repeats. */
  lemma PointsAgree(ps: seq<Option<Point>>)
    ensures multiset(ReadPoints(ps)) == multiset(MapPoints(PointMap(ps))) <==> Clean(ps)
  {
    if Clean(ps) { CleanPoints(ps); }
    PointsCount(ps);
    assert |multiset(ReadPoints(ps))| == |ps|;
    assert |multiset(MapPoints(PointMap(ps)))| == |MapPoints(PointMap(ps))|;
  }

  // ----- Labels -----

  function ReadLabel(l: Option<LabelPair>): LabelPair {
    if l.Some? then l.value else LabelPair("", "")
  }

  function ReadLabels(labels: seq<Option<LabelPair>>): seq<LabelPair> {
    if labels == [] then [] else ReadLabels(labels[..|labels| - 1]) + [ReadLabel(labels[|labels| - 1])]
  }

  /** The non-nil labels that no constant label replaces. */
  function Variable(labels: seq<Option<LabelPair>>, constLabels: map<string, string>): (r: seq<LabelPair>)
    ensures forall i :: 0 <= i < |r| ==> r[i].name !in constLabels
  {
    if labels == [] then []
    else
      var init := Variable(labels[..|labels| - 1], constLabels);
      var l := labels[|labels| - 1];
      if l.None? || l.value.name in constLabels then init else init + [l.value]
  }

  lemma {:induction false} VariableConcat(a: seq<Option<LabelPair>>, b: seq<Option<LabelPair>>, constLabels: map<string, string>)
    ensures Variable(a + b, constLabels) == Variable(a, constLabels) + Variable(b, constLabels)
    decreases |b|
  {
    if b == [] {
      assert a + b == a;
    } else {
      var k := |b| - 1;
      VariableConcat(a, b[..k], constLabels);
      assert (a + b)[..|a + b| - 1] == a + b[..k];
    }
  }

  /** How often a pair that no constant label replaces must come out. */
  function Times(labels: seq<Option<LabelPair>>, constLabels: map<string, string>, l: LabelPair): nat {
    if l.name in constLabels then 0 else multiset(labels)[Some(l)]
  }

  lemma {:induction false} VariableCount(labels: seq<Option<LabelPair>>, constLabels: map<string, string>, l: LabelPair)
    ensures multiset(Variable(labels, constLabels))[l] == Times(labels, constLabels, l)
    decreases |labels|
  {
    if labels != [] {
      var k := |labels| - 1;
      var init, last := labels[..k], labels[k];
      VariableCount(init, constLabels, l);
      assert labels == init + [last];
      CountSnoc(init, last, Some(l));
      if last.Some? {
        CountSnoc(Variable(init, constLabels), last.value, l);
      }
    }
  }

  lemma CountSnoc<T>(s: seq<T>, x: T, y: T)
    ensures multiset(s + [x])[y] == multiset(s)[y] + if x == y then 1 else 0
  {
  }

  function Names(labels: seq<LabelPair>): seq<string> {
    seq(|labels|, i requires 0 <= i < |labels| => labels[i].name)
  }

  function Values(labels: seq<LabelPair>): seq<string> {
    seq(|labels|, i requires 0 <= i < |labels| => labels[i].value)
  }

  function Zip(names: seq<string>, values: seq<string>): seq<LabelPair>
    requires |names| == |values|
  {
    seq(|names|, i requires 0 <= i < |names| => LabelPair(names[i], values[i]))
  }

  function ConstPairs(m: map<string, string>): set<LabelPair> {
    PairsAt(m, m.Keys)
  }

  function PairsAt(m: map<string, string>, keys: set<string>): set<LabelPair>
    requires keys <= m.Keys
  {
    set k | k in keys :: LabelPair(k, m[k])
  }

  function PairList(m: map<string, string>, keys: seq<string>): seq<LabelPair>
    requires forall k :: k in keys ==> k in m
  {
    seq(|keys|, i requires 0 <= i < |keys| => LabelPair(keys[i], m[keys[i]]))
  }

  function SortedLabelPairs(m: map<string, string>): seq<LabelPair> {
    PairList(m, Sorted(m.Keys))
  }

  lemma PairsAtStep(m: map<string, string>, keys: set<string>, k: string)
    requires keys <= m.Keys && k in keys
    ensures var p := LabelPair(k, m[k]);
            PairsAt(m, keys) == PairsAt(m, keys - {k}) + {p} && p !in PairsAt(m, keys - {k})
  {
  }

  lemma PairListStep(m: map<string, string>, k: string, keys: seq<string>)
    requires k in m && forall x :: x in keys ==> x in m
    ensures forall x :: x in [k] + keys ==> x in m
    ensures multiset(PairList(m, [k] + keys)) == multiset{LabelPair(k, m[k])} + multiset(PairList(m, keys))
  {
    assert PairList(m, [k] + keys) == [LabelPair(k, m[k])] + PairList(m, keys);
  }

  lemma {:induction false} SortedPairsAt(m: map<string, string>, keys: set<string>)
    requires keys <= m.Keys
    ensures multiset(PairList(m, Sorted(keys))) == multiset(PairsAt(m, keys))
    decreases |keys|
  {
    if keys == {} {
      assert PairsAt(m, keys) == {};
    } else {
      SortedStep(keys);
      var r := Sorted(keys);
      var k := r[0];
      SortedPairsAt(m, keys - {k});
      PairsAtStep(m, keys, k);
      PairListStep(m, k, Sorted(keys - {k}));
      hide *;
    }
  }

  // ----- Names and constant labels of a family -----

  /** The nil-able fields of the source's collector that decide the schema. */
  datatype Collector = Collector(
    constLabels: Option<map<string, string>>, constLabelPairs: Option<seq<LabelPair>>,
    grpcConstLabels: Option<map<string, string>>, grpcConstLabelPairs: Option<seq<LabelPair>>,
    volumeSchema: bool)

  /** `constLabelPairs` is None when the pairs were not computed beforehand. */
  datatype Schema = Schema(name: string, constLabels: map<string, string>, constLabelPairs: Option<seq<LabelPair>>)

  function OrEmpty(m: Option<map<string, string>>): map<string, string> {
    if m.Some? then m.value else map[]
  }

  function At(m: map<string, string>, k: string): string {
    if k in m then m[k] else ""
  }

  function GrpcConstLabels(m: map<string, string>): map<string, string> {
    map["pod_name" := At(m, "pod_name"), "namespace_name" := At(m, "namespace_name"),
        "volume_name" := At(m, "volume_name"), "bucket_name" := At(m, "bucket_name"), "pod_uid" := ""]
  }

  function NewCollector(labels: Option<map<string, string>>, volumeSchema: bool): Collector {
    var grpc := if volumeSchema && labels.Some? then Some(GrpcConstLabels(labels.value)) else None;
    Collector(labels, Some(SortedLabelPairs(OrEmpty(labels))), grpc,
              if grpc.Some? then Some(SortedLabelPairs(grpc.value)) else None, volumeSchema)
  }

  function TrimPrefix(s: string, p: string): string {
    if p <= s then s[|p|..] else s
  }

  predicate IsGrpcMetric(name: string) {
    "grpc_" <= TrimPrefix(name, "volume_")
  }

  function NormalizeName(volumeSchema: bool, name: string): string {
    var bare := TrimPrefix(name, "volume_");
    if volumeSchema then
      if IsGrpcMetric(bare) then bare
      else if bare == "fs_ops_latency" then "volume_fs_ops_latencies"
      else "volume_" + bare
    else if bare == "fs_ops_latencies" then "fs_ops_latency" else bare
  }

  predicate DoublyPrefixed(name: string) {
    "volume_" <= name && "volume_" <= name[|"volume_"|..]
  }

  lemma Prefixed(bare: string)
    ensures TrimPrefix("volume_" + bare, "volume_") == bare
  {
  }

  /** Switching to the volume schema and back: only a gRPC name prefixed twice changes. */
  lemma RollbackOfVolumeSchema(name: string)
    ensures NormalizeName(false, NormalizeName(true, name)) == NormalizeName(false, name)
            <==> !(DoublyPrefixed(name) && IsGrpcMetric(TrimPrefix(name, "volume_")))
  {
    var bare := TrimPrefix(name, "volume_");
    if !IsGrpcMetric(bare) {
      Prefixed(bare);
      Prefixed("fs_ops_latencies");
    } else if "volume_" <= bare {
      assert |TrimPrefix(bare, "volume_")| < |bare|;
    }
  }

  /** Normalizing a name of the pod schema for the volume schema: only a doubly prefixed name changes. */
  lemma VolumeSchemaOfPodName(name: string)
    ensures NormalizeName(true, NormalizeName(false, name)) == NormalizeName(true, name) <==> !DoublyPrefixed(name)
  {
    var bare := TrimPrefix(name, "volume_");
    assert "volume_" + "fs_ops_latencies" == "volume_fs_ops_latencies";
    if "volume_" <= bare {
      var rest := TrimPrefix(bare, "volume_");
      assert IsGrpcMetric(bare) ==> rest[0] == 'g' && TrimPrefix(rest, "volume_") == rest;
    } else {
      OtherPrefix("fs_ops_latency");
      OtherPrefix("fs_ops_latencies");
    }
  }

  lemma OtherPrefix(s: string)
    requires s != "" && s[0] != 'v'
    ensures TrimPrefix(s, "volume_") == s && (s[0] != 'g' ==> !IsGrpcMetric(s))
  {
  }

  function Resolve(c: Collector, name: string): Schema {
    var effective := c.volumeSchema && !IsGrpcMetric(name);
    var normalized := NormalizeName(effective, name);
    if !effective && c.volumeSchema && c.constLabels.Some? then
      if c.grpcConstLabels.None? then Schema(normalized, GrpcConstLabels(c.constLabels.value), None)
      else Schema(normalized, c.grpcConstLabels.value, c.grpcConstLabelPairs)
    else Schema(normalized, OrEmpty(c.constLabels), c.constLabelPairs)
  }

  /** The schema of a family depends on its name without the prefix. */
  lemma BareDecides(c: Collector, bare: string)
    requires !("volume_" <= bare)
    ensures Resolve(c, "volume_" + bare) == Resolve(c, bare)
  {
    Prefixed(bare);
    assert TrimPrefix(bare, "volume_") == bare;
    hide SortedLabelPairs, GrpcConstLabels, TrimPrefix;
  }

  /** A family that is not gRPC's carries the collector's own labels, and the prefix exactly under
      the volume schema. */
  lemma PlainSchema(labels: Option<map<string, string>>, volumeSchema: bool, bare: string)
    requires !("volume_" <= bare) && !("grpc_" <= bare) && bare != "fs_ops_latency" && bare != "fs_ops_latencies"
    ensures var s := Resolve(NewCollector(labels, volumeSchema), bare);
            && s.name == (if volumeSchema then "volume_" + bare else bare)
            && s.constLabels == (if labels.Some? then labels.value else map[])
  {
    assert TrimPrefix(bare, "volume_") == bare;
    hide SortedLabelPairs, GrpcConstLabels, TrimPrefix;
  }

  /** A gRPC family stays on the pod schema: no prefix, and under the volume schema the pod's
      labels with an empty pod_uid. */
  lemma GrpcSchema(labels: map<string, string>, volumeSchema: bool, bare: string)
    requires "grpc_" <= bare
    ensures var s := Resolve(NewCollector(Some(labels), volumeSchema), bare);
            && s.name == bare
            && (!volumeSchema ==> s.constLabels == labels)
            && (volumeSchema ==> PodLabels(s.constLabels, labels))
  {
    assert bare[0] == 'g' && TrimPrefix(bare, "volume_") == bare;
    GrpcLabels(labels);
    hide SortedLabelPairs, GrpcConstLabels, TrimPrefix, PodLabels;
  }

  ghost predicate PodLabels(m: map<string, string>, labels: map<string, string>) {
    && m.Keys == {"pod_name", "namespace_name", "volume_name", "bucket_name", "pod_uid"}
    && m["pod_uid"] == ""
    && forall k :: k in m && k != "pod_uid" ==> m[k] == if k in labels then labels[k] else ""
  }

  lemma GrpcLabels(labels: map<string, string>)
    ensures PodLabels(GrpcConstLabels(labels), labels)
  {
  }

  /** The one family whose name differs between the schemas. */
  lemma LatencyName(volumeSchema: bool)
    ensures var name := if volumeSchema then "volume_fs_ops_latencies" else "fs_ops_latency";
            NormalizeName(volumeSchema, "fs_ops_latency") == NormalizeName(volumeSchema, "volume_fs_ops_latencies") == name
  {
    OtherPrefix("fs_ops_latency");
    OtherPrefix("fs_ops_latencies");
    Prefixed("fs_ops_latencies");
    assert "volume_" + "fs_ops_latencies" == "volume_fs_ops_latencies";
  }

  ghost predicate SchemaOk(s: Schema) {
    s.constLabelPairs.Some? ==> multiset(s.constLabelPairs.value) == multiset(ConstPairs(s.constLabels))
  }

  /** The precomputed pairs of a collector always belong to the labels they stand for. */
  lemma ResolveOk(labels: Option<map<string, string>>, volumeSchema: bool, name: string)
    ensures SchemaOk(Resolve(NewCollector(labels, volumeSchema), name))
  {
    hide GrpcConstLabels, NormalizeName, IsGrpcMetric, Sorted, PairList, PairsAt;
    var m := OrEmpty(labels);
    SortedPairsAt(m, m.Keys);
    var g := GrpcConstLabels(m);
    SortedPairsAt(g, g.Keys);
  }
}

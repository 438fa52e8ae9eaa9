/** The text the sequential metrics handler streams, and a strict reader of it.

    Families of all mounts are written one after another. A family already declared is
    written again as bare sample lines; one whose type differs from the first is dropped
    (pkg/metrics/metrics.go:374-402). The reader follows the Prometheus text parser: it
    rejects a second HELP or TYPE for a family and files a sample line under the family
    its series name resolves to. */
module MetricsText {
  import opened GoStrings

  datatype MetricType = Counter | Gauge | Untyped | Summary | Histogram

  datatype Suffix = Bare | Sum | Count | Bucket

  /** One sample line: the series name is the family name plus the suffix; `rest` is the
      rendered labels and value. */
  datatype Sample = Sample(suffix: Suffix, rest: string)

  datatype Family = Family(name: string, typ: MetricType, help: Option<string>, samples: seq<Sample>)

  // ----- Names -----

  predicate NameStart(c: char) {
    'a' <= c <= 'z' || 'A' <= c <= 'Z' || c == '_' || c == ':'
  }

  predicate NameChar(c: char) {
    NameStart(c) || '0' <= c <= '9'
  }

  predicate ValidName(n: string) {
    n != "" && NameStart(n[0]) && forall i :: 0 <= i < |n| ==> NameChar(n[i])
  }

  /** The suffixes the encoder always writes for one metric of this type. */
  predicate Mandatory(t: MetricType, suffix: Suffix) {
    match suffix
    case Bare => false
    case Bucket => t.Histogram?
    case _ => t.Histogram? || t.Summary?
  }

  predicate SuffixOk(t: MetricType, suffix: Suffix) {
    Mandatory(t, suffix) || (suffix.Bare? && !t.Histogram?)
  }

  function SuffixText(suffix: Suffix): string {
    match suffix
    case Bare => ""
    case Sum => "_sum"
    case Count => "_count"
    case Bucket => "_bucket"
  }

  function Series(name: string, suffix: Suffix): string {
    name + SuffixText(suffix)
  }

  predicate SampleOk(t: MetricType, s: Sample) {
    && SuffixOk(t, s.suffix)
    && OneLine(s.rest) && s.rest != "" && !NameChar(s.rest[0])
  }

  predicate HasSuffix(samples: seq<Sample>, suffix: Suffix) {
    exists i :: 0 <= i < |samples| && samples[i].suffix == suffix
  }

  /** What reaches the encoder: a named family with samples in the library's layout. */
  ghost predicate WellFormed(f: Family) {
    && ValidName(f.name) && f.samples != []
    && (forall i :: 0 <= i < |f.samples| ==> SampleOk(f.typ, f.samples[i]))
    && (forall suf :: Mandatory(f.typ, suf) ==> HasSuffix(f.samples, suf))
  }

  ghost predicate AllWellFormed(fs: seq<Family>) {
    forall i :: 0 <= i < |fs| ==> WellFormed(fs[i])
  }

  // ----- Writing -----

  function TypeName(t: MetricType): string {
    match t
    case Counter => "counter"
    case Gauge => "gauge"
    case Untyped => "untyped"
    case Summary => "summary"
    case Histogram => "histogram"
  }

  function Escape(s: string): (e: string)
    ensures '\n' !in e
  {
    if s == "" then ""
    else (if s[0] == '\\' then "\\\\" else if s[0] == '\n' then "\\n" else [s[0]]) + Escape(s[1..])
  }

  const HELP := "# HELP "
  const TYPE := "# TYPE "

  function HelpLines(f: Family): seq<string> {
    if f.help.None? then [] else [HELP + (f.name + (" " + Escape(f.help.value)))]
  }

  function TypeLine(f: Family): string {
    TYPE + (f.name + (" " + TypeName(f.typ)))
  }

  function SampleLine(name: string, s: Sample): string {
    Series(name, s.suffix) + s.rest
  }

  function SampleLines(name: string, samples: seq<Sample>): (lines: seq<string>)
    ensures |lines| == |samples|
  {
    if samples == [] then [] else SampleLines(name, samples[..|samples| - 1]) + [SampleLine(name, samples[|samples| - 1])]
  }

  function FamilyLines(f: Family): seq<string> {
    HelpLines(f) + [TypeLine(f)] + SampleLines(f.name, f.samples)
  }

  /** The types under which families were first written, after `fs`. */
  function Seen(fs: seq<Family>): map<string, MetricType> {
    if fs == [] then map[]
    else NoteSeen(Seen(fs[..|fs| - 1]), fs[|fs| - 1])
  }

  function NoteSeen(seen: map<string, MetricType>, f: Family): map<string, MetricType> {
    if f.name in seen then seen else seen[f.name := f.typ]
  }

  /** The lines `f` adds when the families in `seen` are already declared. */
  function EmitLines(seen: map<string, MetricType>, f: Family): seq<string> {
    if f.name !in seen then FamilyLines(f)
    else if seen[f.name] != f.typ then []
    else SampleLines(f.name, f.samples)
  }

  function Emitted(fs: seq<Family>): seq<string> {
    if fs == [] then []
    else Emitted(fs[..|fs| - 1]) + EmitLines(Seen(fs[..|fs| - 1]), fs[|fs| - 1])
  }

  // ----- Reading -----

  /** What the reader holds of a family: each sample with the suffix its series name was read
      with, and the text after the name. */
  datatype Record = Record(help: Option<string>, typ: Option<MetricType>, samples: seq<Sample>)

  type Parsed = map<string, Record>

  /** `Mention`: a HELP or TYPE line with nothing after the name. */
  datatype Line = HelpOf(name: string, help: string) | Mention(name: string) | TypeOf(name: string, typ: Option<MetricType>) | SampleOf(series: string, rest: string) | Ignored | Malformed

  function StripBlanks(s: string): string {
    if s != "" && (s[0] == ' ' || s[0] == '\t') then StripBlanks(s[1..]) else s
  }

  /** The inverse of `Escape`; None for an escape that does not exist. */
  function Unescape(s: string): Option<string> {
    if s == "" then Some("")
    else if s[0] != '\\' then
      var rest := Unescape(s[1..]);
      if rest.None? then None else Some([s[0]] + rest.value)
    else if |s| < 2 || !(s[1] == '\\' || s[1] == 'n' || s[1] == '"') then None
    else
      var rest := Unescape(s[2..]);
      if rest.None? then None else Some([if s[1] == 'n' then '\n' else s[1]] + rest.value)
  }

  /** The help text a reader recovers: leading blanks are lost, and a blank text altogether. */
  function Doc(help: Option<string>): Option<string> {
    if help.None? || StripBlanks(help.value) == "" then None else Some(StripBlanks(help.value))
  }

  function NameRun(s: string): (n: string)
    ensures n <= s
  {
    if s == "" || !NameChar(s[0]) then "" else [s[0]] + NameRun(s[1..])
  }

  function ReadName(s: string): (n: string)
    ensures n <= s
  {
    if s == "" || !NameStart(s[0]) then "" else NameRun(s)
  }

  function ReadType(s: string): Option<MetricType> {
    if s == "counter" then Some(Counter)
    else if s == "gauge" then Some(Gauge)
    else if s == "untyped" then Some(Untyped)
    else if s == "summary" then Some(Summary)
    else if s == "histogram" then Some(Histogram)
    else None
  }

  predicate SaysHelp(line: string) {
    |line| >= 7 && line[..7] == "# HELP "
  }

  predicate SaysType(line: string) {
    |line| >= 7 && line[..7] == "# TYPE "
  }

  /** A HELP or TYPE line, after the keyword. */
  function Comment(body: string, isType: bool): Line {
    var name := ReadName(body);
    if name == "" then Malformed
    else if |name| >= |body| then Ignored
    else if body[|name|] != ' ' then Malformed
    else
      var tail := StripBlanks(body[|name| + 1..]);
      if tail == "" then Mention(name)
      else if isType then TypeOf(name, ReadType(tail))
      else if Unescape(tail).None? then Malformed
      else HelpOf(name, Unescape(tail).value)
  }

  function Classify(line: string): Line {
    if line == "" then Ignored
    else if line[0] != '#' then
      var name := ReadName(line);
      if name == "" then Malformed else SampleOf(name, line[|name|..])
    else if SaysHelp(line) || SaysType(line) then Comment(line[7..], SaysType(line))
    else Ignored
  }

  /** `n` is a longer name ending in the text. */
  predicate EndsWith(n: string, text: string) {
    |n| > |text| && n[|n| - |text|..] == text
  }

  /** The first of these suffixes the name ends in. */
  function SuffixOf(n: string): Suffix {
    if EndsWith(n, "_count") then Count
    else if EndsWith(n, "_sum") then Sum
    else if EndsWith(n, "_bucket") then Bucket
    else Bare
  }

  function HistogramBase(n: string): string {
    match SuffixOf(n)
    case Count => n[..|n| - 6]
    case Sum => n[..|n| - 4]
    case Bucket => n[..|n| - 7]
    case Bare => n
  }

  function SummaryBase(n: string): string {
    if SuffixOf(n).Bucket? then n else HistogramBase(n)
  }

  predicate Typed(st: Parsed, n: string, t: MetricType) {
    n in st && st[n].typ == Some(t)
  }

  /** The family a name in the text stands for. */
  function Resolve(st: Parsed, n: string): string {
    if n in st then n
    else if Typed(st, SummaryBase(n), Summary) then SummaryBase(n)
    else if Typed(st, HistogramBase(n), Histogram) then HistogramBase(n)
    else n
  }

  function RecordOf(st: Parsed, n: string): Record {
    if n in st then st[n] else Record(None, None, [])
  }

  function ReadLine(st: Parsed, line: string): Option<Parsed> {
    Take(st, Classify(line))
  }

  function Take(st: Parsed, kind: Line): Option<Parsed> {
    match kind
    case Ignored => Some(st)
    case Malformed => None
    case Mention(n) =>
      var k := Resolve(st, n);
      Some(st[k := RecordOf(st, k)])
    case HelpOf(n, help) =>
      var k := Resolve(st, n);
      var r := RecordOf(st, k);
      if r.help.Some? then None else Some(st[k := r.(help := Some(help))])
    case TypeOf(n, t) =>
      var k := Resolve(st, n);
      var r := RecordOf(st, k);
      if r.typ.Some? || t.None? then None else Some(st[k := r.(typ := t)])
    case SampleOf(n, rest) =>
      var k := Resolve(st, n);
      var r := RecordOf(st, k);
      var sample := Sample(if k == n then Bare else SuffixOf(n), rest);
      Some(st[k := Record(r.help, if r.typ.None? then Some(Untyped) else r.typ, r.samples + [sample])])
  }

  /** Reads `lines` in order; None once a line is rejected. */
  function ReadLines(st: Option<Parsed>, lines: seq<string>): Option<Parsed> {
    if lines == [] then st
    else
      var before := ReadLines(st, lines[..|lines| - 1]);
      if before.None? then None else ReadLine(before.value, lines[|lines| - 1])
  }

  function ReadText(text: string): Option<Parsed> {
    ReadLines(Some(map[]), Split(text, '\n'))
  }

  // ----- What the reader ought to recover -----

  function Expected(fs: seq<Family>): Parsed {
    if fs == [] then map[] else Absorb(Expected(fs[..|fs| - 1]), fs[|fs| - 1])
  }

  function Absorb(st: Parsed, f: Family): Parsed {
    if f.name !in st then st[f.name := Record(Doc(f.help), Some(f.typ), f.samples)]
    else if st[f.name].typ != Some(f.typ) then st
    else st[f.name := st[f.name].(samples := st[f.name].samples + f.samples)]
  }

  /** In visit order, the samples of every family `n` of type `t`. */
  function Collect(fs: seq<Family>, n: string, t: MetricType): seq<Sample> {
    if fs == [] then []
    else
      var f := fs[|fs| - 1];
      Collect(fs[..|fs| - 1], n, t) + if f.name == n && f.typ == t then f.samples else []
  }

  lemma {:induction false} CollectConcat(a: seq<Family>, b: seq<Family>, n: string, t: MetricType)
    ensures Collect(a + b, n, t) == Collect(a, n, t) + Collect(b, n, t)
    decreases |b|
  {
    if b == [] {
      assert a + b == a;
      CollectNone(n, t);
    } else {
      var init, f := b[..|b| - 1], b[|b| - 1];
      CollectConcat(a, init, n, t);
      CollectSnoc(a + init, f, n, t);
      CollectSnoc(init, f, n, t);
      hide Collect;
      assert a + b == (a + init) + [f] && b == init + [f];
    }
  }

  lemma CollectNone(n: string, t: MetricType)
    ensures Collect([], n, t) == []
  {
  }

  lemma CollectSnoc(fs: seq<Family>, f: Family, n: string, t: MetricType)
    ensures Collect(fs + [f], n, t) == Collect(fs, n, t) + if f.name == n && f.typ == t then f.samples else []
  {
    assert (fs + [f])[..|fs|] == fs;
  }

  /** Every sample of a family that agrees with the first in name and type is recovered. */
  lemma NoSampleLost(fs: seq<Family>, n: string, i: int, j: int, k: int)
    requires FirstAt(fs, n, i) && 0 <= j < |fs| && fs[j].name == n && fs[j].typ == fs[i].typ && 0 <= k < |fs[j].samples|
    ensures n in Expected(fs) && fs[j].samples[k] in Expected(fs)[n].samples
  {
    ExpectedMeaning(fs, n, i);
    var f, t := fs[j], fs[i].typ;
    hide Collect, Expected;
    assert fs == fs[..j] + ([f] + fs[j + 1..]);
    CollectConcat(fs[..j], [f] + fs[j + 1..], n, t);
    CollectConcat([f], fs[j + 1..], n, t);
    CollectNone(n, t);
    CollectSnoc([], f, n, t);
    assert [] + [f] == [f] && Collect([f], n, t) == f.samples;
  }

  /** The index of the first family called `n`. */
  ghost predicate FirstAt(fs: seq<Family>, n: string, i: int) {
    0 <= i < |fs| && fs[i].name == n && forall j :: 0 <= j < i ==> fs[j].name != n
  }

  function Gathered(fs: seq<Family>, n: string, i: int): Record
    requires 0 <= i < |fs|
  {
    Record(Doc(fs[i].help), Some(fs[i].typ), Collect(fs, n, fs[i].typ))
  }

  /** No family called `n`: nothing is recovered for it. */
  lemma {:induction false} ExpectedAbsent(fs: seq<Family>, n: string, t: MetricType)
    requires forall i :: 0 <= i < |fs| ==> fs[i].name != n
    ensures n !in Expected(fs) && Collect(fs, n, t) == []
    decreases |fs|
  {
    if fs != [] {
      ExpectedAbsent(fs[..|fs| - 1], n, t);
    }
  }

  /** A name is declared as its first family declares it, and holds the samples of every
      mount that agrees with that type, in visit order. */
  lemma {:induction false} ExpectedMeaning(fs: seq<Family>, n: string, i: int)
    requires FirstAt(fs, n, i)
    ensures n in Expected(fs) && Expected(fs)[n] == Gathered(fs, n, i)
    decreases |fs|
  {
    hide Doc;
    var k := |fs| - 1;
    var pre, f := fs[..k], fs[k];
    if i == k {
      ExpectedAbsent(pre, n, f.typ);
    } else {
      ExpectedMeaning(pre, n, i);
      assert fs[i] == pre[i];
    }
  }
}

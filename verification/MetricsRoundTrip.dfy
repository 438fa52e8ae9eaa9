/** When the streamed text reads back as intended, for every sequence of families.

    The reader recovers exactly the intended families if and only if no family name that
    was written is a series name (`_sum`, `_count`, `_bucket`) of another written family. */
module MetricsRoundTrip {
  import opened GoStrings
  import opened MetricsText

  /** Written family `q` bears the name of one of written family `p`'s own series. */
  ghost predicate Collide(seen: map<string, MetricType>, p: string, q: string) {
    p in seen && q in seen && exists suf :: Mandatory(seen[p], suf) && q == Series(p, suf)
  }

  ghost predicate CollisionFree(seen: map<string, MetricType>) {
    forall p, q :: p in seen && q in seen ==> !Collide(seen, p, q)
  }

  // ----- Classifying the encoder's own lines -----

  lemma {:induction false} NameRunStops(n: string, rest: string)
    requires forall i :: 0 <= i < |n| ==> NameChar(n[i])
    requires rest == "" || !NameChar(rest[0])
    ensures NameRun(n + rest) == n
    decreases |n|
  {
    if n == "" {
      assert n + rest == rest;
    } else {
      NameRunStops(n[1..], rest);
      assert (n + rest)[1..] == n[1..] + rest;
    }
  }

  lemma ReadNameStops(n: string, rest: string)
    requires ValidName(n)
    requires rest == "" || !NameChar(rest[0])
    ensures ReadName(n + rest) == n
  {
    NameRunStops(n, rest);
  }

  lemma SeriesIsName(name: string, suf: Suffix)
    requires ValidName(name)
    ensures ValidName(Series(name, suf))
  {
    var text := SuffixText(suf);
    assert forall i :: 0 <= i < |text| ==> NameChar(text[i]);
  }

  lemma ClassifySample(name: string, t: MetricType, s: Sample)
    requires ValidName(name) && SampleOk(t, s)
    ensures Classify(SampleLine(name, s)) == SampleOf(Series(name, s.suffix), s.rest)
    ensures OneLine(SampleLine(name, s))
  {
    SeriesIsName(name, s.suffix);
    ReadNameStops(Series(name, s.suffix), s.rest);
    assert SampleLine(name, s)[|Series(name, s.suffix)|..] == s.rest;
  }

  lemma {:induction false} UnescapeEscape(s: string)
    ensures Unescape(Escape(s)) == Some(s)
    decreases |s|
  {
    if s != "" {
      UnescapeEscape(s[1..]);
      var e := Escape(s);
      var n := |e| - |Escape(s[1..])|;
      assert e[n..] == Escape(s[1..]);
      assert s == [s[0]] + s[1..];
    }
  }

  lemma {:induction false} StripEscape(s: string)
    ensures StripBlanks(Escape(s)) == Escape(StripBlanks(s))
    decreases |s|
  {
    if s != "" && (s[0] == ' ' || s[0] == '\t') {
      StripEscape(s[1..]);
      assert Escape(s)[1..] == Escape(s[1..]);
    }
  }

  /** Leading blanks and tabs are stripped, and nothing else. */
  lemma {:induction false} StripsOnlyBlanks(s: string)
    ensures exists k :: 0 <= k <= |s| && StripBlanks(s) == s[k..] && (k < |s| ==> s[k] != ' ' && s[k] != '\t')
                        && forall i :: 0 <= i < k ==> s[i] == ' ' || s[i] == '\t'
    decreases |s|
  {
    if s != "" && (s[0] == ' ' || s[0] == '\t') {
      StripsOnlyBlanks(s[1..]);
      var k :| 0 <= k <= |s[1..]| && StripBlanks(s[1..]) == s[1..][k..] && (k < |s[1..]| ==> s[1..][k] != ' ' && s[1..][k] != '\t')
               && forall i :: 0 <= i < k ==> s[1..][i] == ' ' || s[1..][i] == '\t';
      assert s[1..][k..] == s[k + 1..];
      forall i | 0 <= i < k + 1
        ensures s[i] == ' ' || s[i] == '\t'
      {
        if i > 0 { assert s[1..][i - 1] == s[i]; }
      }
    } else {
      assert s[0..] == s;
    }
  }

  /** What a HELP line with this text says to the reader. */
  function Said(n: string, doc: Option<string>): Line {
    if doc.Some? then HelpOf(n, doc.value) else Mention(n)
  }

  lemma ReadDoc(help: string)
    ensures var tail := StripBlanks(Escape(help));
            if Doc(Some(help)).None? then tail == "" else tail != "" && Unescape(tail) == Doc(Some(help))
  {
    StripEscape(help);
    UnescapeEscape(StripBlanks(help));
    hide StripBlanks;
  }

  /** A HELP or TYPE line, whatever follows the name. */
  lemma ClassifyComment(key: string, name: string, rest: string)
    requires (key == HELP || key == TYPE) && ValidName(name)
    ensures var tail := StripBlanks(rest);
            Classify(key + (name + (" " + rest)))
            == if tail == "" then Mention(name)
               else if key == TYPE then TypeOf(name, ReadType(tail))
               else if Unescape(tail).None? then Malformed
               else HelpOf(name, Unescape(tail).value)
  {
    var body := name + (" " + rest);
    CommentIs(name, rest, key == TYPE);
    KeysSay(key, body);
    hide Comment, Unescape, StripBlanks, ReadName, ReadType, ValidName, SaysHelp, SaysType, HELP, TYPE;
    var line := key + body;
    assert line[7..] == body && line[0] == key[0];
  }

  lemma CommentIs(name: string, rest: string, isType: bool)
    requires ValidName(name)
    ensures var tail := StripBlanks(rest);
            Comment(name + (" " + rest), isType)
            == if tail == "" then Mention(name)
               else if isType then TypeOf(name, ReadType(tail))
               else if Unescape(tail).None? then Malformed
               else HelpOf(name, Unescape(tail).value)
  {
    hide Unescape, StripBlanks, ReadName, ReadType, ValidName;
    NameIsSome(name);
    ReadNameStops(name, " " + rest);
    var body := name + (" " + rest);
    assert body[|name|] == ' ' && body[|name| + 1..] == rest;
  }

  lemma NameIsSome(n: string)
    requires ValidName(n)
    ensures n != "" && !NameChar(' ')
  {
  }

  lemma KeysSay(key: string, body: string)
    requires key == HELP || key == TYPE
    ensures |key| == 7 && key[0] == '#'
    ensures SaysHelp(key + body) <==> key == HELP
    ensures SaysType(key + body) <==> key == TYPE
  {
    assert (key + body)[..7] == key;
    assert HELP[2] != TYPE[2];
  }

  lemma ClassifyHelp(f: Family)
    requires WellFormed(f) && f.help.Some?
    ensures Classify(HelpLines(f)[0]) == Said(f.name, Doc(f.help))
    ensures OneLine(HelpLines(f)[0])
  {
    ClassifyComment(HELP, f.name, Escape(f.help.value));
    ReadDoc(f.help.value);
    KeysDiffer();
    NameIsOneLine(f.name);
    hide Classify, Escape, Unescape, StripBlanks, Doc;
  }

  lemma KeysDiffer()
    ensures HELP != TYPE && OneLine(HELP) && OneLine(TYPE)
  {
    assert HELP[2] != TYPE[2];
  }

  lemma NameIsOneLine(n: string)
    requires ValidName(n)
    ensures OneLine(n)
  {
  }

  lemma ReadTypeName(t: MetricType)
    ensures var text := TypeName(t);
            ReadType(text) == Some(t) && OneLine(text) && text != "" && StripBlanks(text) == text
  {
  }

  lemma ClassifyType(f: Family)
    requires WellFormed(f)
    ensures Classify(TypeLine(f)) == TypeOf(f.name, Some(f.typ))
    ensures OneLine(TypeLine(f))
  {
    ClassifyComment(TYPE, f.name, TypeName(f.typ));
    ReadTypeName(f.typ);
    KeysDiffer();
    NameIsOneLine(f.name);
    hide Classify, TypeName, StripBlanks, ReadType;
  }

  // ----- Resolving names -----

  /** Every name in the state has its own type, as between two families. */
  ghost predicate Settled(st: Parsed) {
    forall n :: n in st ==> st[n].typ.Some?
  }

  lemma SuffixOfSeries(p: string, suf: Suffix)
    requires p != "" && !suf.Bare?
    ensures SuffixOf(Series(p, suf)) == suf && HistogramBase(Series(p, suf)) == p
  {
    var n := Series(p, suf);
    assert n[|n| - |SuffixText(suf)|..] == SuffixText(suf);
    match suf
    case Count =>
    case Sum =>
      assert n[|n| - 1] == 'm';
    case Bucket =>
      assert n[|n| - 1] == 't' && n[|n| - 6] == 'b';
  }

  lemma SeriesOfSuffix(n: string)
    ensures n == Series(HistogramBase(n), SuffixOf(n))
  {
  }

  /** A declared family's sample goes to it, unless a family is called like the series. */
  lemma ResolveSample(st: Parsed, p: string, t: MetricType, suf: Suffix)
    requires p != "" && Typed(st, p, t) && SuffixOk(t, suf)
    ensures Resolve(st, Series(p, suf)) == if Series(p, suf) in st then Series(p, suf) else p
  {
    if suf.Bare? {
      assert Series(p, suf) == p;
    } else {
      SuffixOfSeries(p, suf);
    }
  }

  ghost predicate Claims(st: Parsed, p: string, n: string) {
    p in st && st[p].typ.Some? && exists suf :: Mandatory(st[p].typ.value, suf) && n == Series(p, suf)
  }

  /** A new name stands for itself exactly when no declared family has a series of that name. */
  lemma ResolveNew(st: Parsed, n: string)
    requires n !in st && "" !in st
    ensures Resolve(st, n) == n <==> forall p :: p in st ==> !Claims(st, p, n)
    ensures Resolve(st, n) != n ==> Resolve(st, n) in st
  {
    forall p | p in st && Claims(st, p, n)
      ensures Resolve(st, n) != n
    {
      var suf :| Mandatory(st[p].typ.value, suf) && n == Series(p, suf);
      SuffixOfSeries(p, suf);
    }
    var k := Resolve(st, n);
    if k != n {
      SeriesOfSuffix(n);
      assert Mandatory(st[k].typ.value, SuffixOf(n)) && n == Series(k, SuffixOf(n));
      assert Claims(st, k, n);
    }
  }

  // ----- Reading one family -----

  lemma {:induction false} ReadConcat(st: Option<Parsed>, a: seq<string>, b: seq<string>)
    ensures ReadLines(st, a + b) == ReadLines(ReadLines(st, a), b)
    decreases |b|
  {
    if b == [] {
      assert a + b == a;
    } else {
      var k := |b| - 1;
      assert (a + b)[..|a + b| - 1] == a + b[..k];
      ReadConcat(st, a, b[..k]);
    }
  }

  lemma {:induction false} ReadNone(lines: seq<string>)
    ensures ReadLines(None, lines) == None
    decreases |lines|
  {
    if lines != [] {
      ReadNone(lines[..|lines| - 1]);
    }
  }

  lemma ReadOne(st: Parsed, line: string)
    ensures ReadLines(Some(st), [line]) == ReadLine(st, line)
  {
    assert [line][..0] == [];
  }

  function Declared(st: Parsed, f: Family): Parsed {
    st[f.name := Record(Doc(f.help), Some(f.typ), [])]
  }

  ghost predicate Claimed(st: Parsed, n: string) {
    exists p :: p in st && Claims(st, p, n)
  }

  /** A TYPE line for a name not declared yet, possibly right after its HELP line. */
  lemma TakeType(st: Parsed, k: string, n: string, t: MetricType)
    requires k == Resolve(st, n)
    ensures k in st && st[k].typ.Some? ==> Take(st, TypeOf(n, Some(t))) == None
    ensures RecordOf(st, k).typ.None? ==>
              Take(st, TypeOf(n, Some(t))) == Some(st[k := RecordOf(st, k).(typ := Some(t))])
  {
  }

  lemma TakeHelp(st: Parsed, n: string, doc: Option<string>)
    requires n !in st && "" !in st && Settled(st)
    ensures !Claimed(st, n) ==> Take(st, Said(n, doc)) == Some(st[n := Record(doc, None, [])])
    ensures Claimed(st, n) && Take(st, Said(n, doc)).Some? ==>
              var k := Resolve(st, n);
              k != n && k in st && Take(st, Said(n, doc)) == Some(st[k := st[k].(help := if doc.Some? then doc else st[k].help)])
  {
    ResolveNew(st, n);
  }

  /** What the reader refuses: a second HELP or TYPE for a family, an unknown type, and a line that
      is no comment and does not begin like a name. */
  lemma StrictReader(st: Parsed, n: string, help: string, t: MetricType, line: string)
    ensures var r := RecordOf(st, Resolve(st, n));
            && (r.help.Some? ==> Take(st, HelpOf(n, help)).None?)
            && (r.typ.Some? ==> Take(st, TypeOf(n, Some(t))).None?)
            && Take(st, TypeOf(n, None)).None?
    ensures line != "" && line[0] != '#' && !NameStart(line[0]) ==> ReadLine(st, line).None?
  {
    hide Resolve;
  }

  lemma HelpKeepsNames(st: Parsed, k: string, n: string, help: Option<string>)
    requires n !in st && k in st && k == Resolve(st, n)
    ensures Resolve(st[k := st[k].(help := help)], n) == k
  {
  }

  lemma ReadBareDeclaration(st: Parsed, f: Family)
    requires WellFormed(f) && Settled(st) && "" !in st && f.name !in st
    ensures ReadLine(st, TypeLine(f)) == if Claimed(st, f.name) then None else Some(st[f.name := Record(None, Some(f.typ), [])])
  {
    ClassifyType(f);
    ResolveNew(st, f.name);
    TakeType(st, Resolve(st, f.name), f.name, f.typ);
  }

  lemma TakeHelpThenType(st: Parsed, n: string, doc: Option<string>, t: MetricType)
    requires n !in st && "" !in st && Settled(st)
    ensures var mid := Take(st, Said(n, doc));
            (if mid.None? then None else Take(mid.value, TypeOf(n, Some(t))))
            == if Claimed(st, n) then None else Some(st[n := Record(doc, Some(t), [])])
  {
    TakeHelp(st, n, doc);
    var mid := Take(st, Said(n, doc));
    if mid.Some? {
      if Claimed(st, n) {
        var k := Resolve(st, n);
        HelpKeepsNames(st, k, n, if doc.Some? then doc else st[k].help);
        TakeType(mid.value, k, n, t);
      } else {
        TakeType(mid.value, n, n, t);
        assert mid.value[n := Record(doc, Some(t), [])] == st[n := Record(doc, Some(t), [])];
      }
    }
  }

  lemma ReadHelpedDeclaration(st: Parsed, f: Family, help: string, typ: string)
    requires WellFormed(f) && Settled(st) && "" !in st && f.name !in st
    requires f.help.Some? && help == HelpLines(f)[0] && typ == TypeLine(f)
    ensures var mid := ReadLine(st, help);
            (if mid.None? then None else ReadLine(mid.value, typ))
            == if Claimed(st, f.name) then None else Some(Declared(st, f))
  {
    ClassifyHelp(f);
    ClassifyType(f);
    TakeHelpThenType(st, f.name, Doc(f.help), f.typ);
  }

  /** The HELP and TYPE lines of a new name are accepted exactly when no earlier family
      claims the name; then they declare just that family. */
  lemma ReadDeclaration(st: Parsed, f: Family)
    requires WellFormed(f) && Settled(st) && "" !in st && f.name !in st
    ensures ReadLines(Some(st), HelpLines(f) + [TypeLine(f)])
         == if Claimed(st, f.name) then None else Some(Declared(st, f))
  {
    if f.help.None? {
      ReadBareDeclaration(st, f);
      assert HelpLines(f) + [TypeLine(f)] == [TypeLine(f)];
      ReadOne(st, TypeLine(f));
    } else {
      ReadHelpedDeclaration(st, f, HelpLines(f)[0], TypeLine(f));
      ReadConcat(Some(st), HelpLines(f), [TypeLine(f)]);
      assert HelpLines(f) == [HelpLines(f)[0]];
      ReadOne(st, HelpLines(f)[0]);
      var mid := ReadLine(st, HelpLines(f)[0]);
      if mid.Some? { ReadOne(mid.value, TypeLine(f)); } else { ReadNone([TypeLine(f)]); }
    }
  }

  lemma ReadFamily(st: Parsed, f: Family)
    requires WellFormed(f) && Settled(st) && "" !in st && f.name !in st
    ensures ReadLines(Some(st), FamilyLines(f))
         == if Claimed(st, f.name) then None else ReadLines(Some(Declared(st, f)), SampleLines(f.name, f.samples))
  {
    ReadDeclaration(st, f);
    ReadConcat(Some(st), HelpLines(f) + [TypeLine(f)], SampleLines(f.name, f.samples));
    ReadNone(SampleLines(f.name, f.samples));
  }

  /** Where each sample of a declared family ends up. */
  function Filed(st: Parsed, name: string, samples: seq<Sample>): Parsed
    requires name in st
    ensures Filed(st, name, samples).Keys == st.Keys
  {
    if samples == [] then st
    else
      var k := |samples| - 1;
      var mid := Filed(st, name, samples[..k]);
      var s := samples[k];
      if Series(name, s.suffix) in st then
        var to := Series(name, s.suffix);
        mid[to := mid[to].(samples := mid[to].samples + [Sample(Bare, s.rest)])]
      else
        mid[name := mid[name].(samples := mid[name].samples + [s])]
  }

  ghost predicate SameHeads(a: Parsed, b: Parsed) {
    a.Keys == b.Keys && forall n :: n in a ==> a[n].typ == b[n].typ && a[n].help == b[n].help
  }

  lemma ReadSample(st: Parsed, name: string, t: MetricType, s: Sample)
    requires ValidName(name) && Settled(st) && Typed(st, name, t) && SampleOk(t, s)
    ensures var to, read := if Series(name, s.suffix) in st then Series(name, s.suffix) else name,
                            if Series(name, s.suffix) in st then Sample(Bare, s.rest) else s;
            ReadLine(st, SampleLine(name, s)) == Some(st[to := st[to].(samples := st[to].samples + [read])])
  {
    hide Classify, Resolve, SuffixOf, Series, SampleLine, SampleOk, ValidName;
    SampleParts(name, t, s);
    ClassifySample(name, t, s);
    ResolveSample(st, name, t, s.suffix);
    SuffixRead(name, s.suffix);
  }

  lemma SampleParts(name: string, t: MetricType, s: Sample)
    requires ValidName(name) && SampleOk(t, s)
    ensures name != "" && SuffixOk(t, s.suffix)
  {
  }

  lemma SuffixRead(name: string, suf: Suffix)
    requires ValidName(name)
    ensures if suf.Bare? then Series(name, suf) == name else Series(name, suf) != name && SuffixOf(Series(name, suf)) == suf
  {
    if !suf.Bare? {
      SuffixOfSeries(name, suf);
      assert |Series(name, suf)| > |name|;
    }
  }

  lemma {:induction false} FiledHeads(st: Parsed, name: string, samples: seq<Sample>)
    requires name in st
    ensures SameHeads(st, Filed(st, name, samples))
    decreases |samples|
  {
    if samples != [] {
      FiledHeads(st, name, samples[..|samples| - 1]);
    }
  }

  lemma {:induction false} ReadSamples(st: Parsed, name: string, t: MetricType, samples: seq<Sample>)
    requires ValidName(name) && Settled(st) && Typed(st, name, t)
    requires forall i :: 0 <= i < |samples| ==> SampleOk(t, samples[i])
    ensures ReadLines(Some(st), SampleLines(name, samples)) == Some(Filed(st, name, samples))
    ensures SameHeads(st, Filed(st, name, samples))
    decreases |samples|
  {
    hide ReadLine, SampleOk, ValidName, SampleLine, Series;
    FiledHeads(st, name, samples);
    if samples != [] {
      var k := |samples| - 1;
      ReadSamples(st, name, t, samples[..k]);
      var mid := Filed(st, name, samples[..k]);
      ReadSample(mid, name, t, samples[k]);
      ReadConcat(Some(st), SampleLines(name, samples[..k]), [SampleLine(name, samples[k])]);
      ReadOne(mid, SampleLine(name, samples[k]));
    }
  }

  /** No series name is taken: all samples go to their own family, in order. */
  lemma {:induction false} FiledHome(st: Parsed, name: string, samples: seq<Sample>)
    requires name in st
    requires forall i :: 0 <= i < |samples| ==> samples[i].suffix.Bare? || Series(name, samples[i].suffix) !in st
    ensures Filed(st, name, samples) == st[name := st[name].(samples := st[name].samples + samples)]
    decreases |samples|
  {
    if samples == [] {
      assert st[name].samples + [] == st[name].samples;
    } else {
      var k := |samples| - 1;
      FiledHome(st, name, samples[..k]);
      assert samples[k].suffix.Bare? ==> Series(name, samples[k].suffix) == name;
      assert st[name].samples + samples[..k] + [samples[k]] == st[name].samples + samples;
    }
  }

  ghost predicate Foreign(p: string, name: string, samples: seq<Sample>) {
    p != name && forall i :: 0 <= i < |samples| ==> p != Series(name, samples[i].suffix)
  }

  ghost predicate Stolen(st: Parsed, name: string, samples: seq<Sample>) {
    exists i :: 0 <= i < |samples| && !samples[i].suffix.Bare? && Series(name, samples[i].suffix) in st
  }

  /** A family gains no sample of another one, unless it is called like one of its series. */
  lemma {:induction false} FiledElsewhere(st: Parsed, name: string, samples: seq<Sample>, p: string)
    requires name in st && p in st && Foreign(p, name, samples)
    ensures Filed(st, name, samples)[p] == st[p]
    decreases |samples|
  {
    if samples != [] {
      var k := |samples| - 1;
      assert forall i :: 0 <= i < k ==> samples[..k][i] == samples[i];
      FiledElsewhere(st, name, samples[..k], p);
    }
  }

  /** A family gains at most its own samples, and fewer if one of its series is taken. */
  lemma {:induction false} FiledCount(st: Parsed, name: string, samples: seq<Sample>)
    requires name in st
    ensures |Filed(st, name, samples)[name].samples| <= |st[name].samples| + |samples|
    ensures Stolen(st, name, samples) ==> |Filed(st, name, samples)[name].samples| < |st[name].samples| + |samples|
    decreases |samples|
  {
    if samples != [] {
      var k := |samples| - 1;
      FiledCount(st, name, samples[..k]);
      if Stolen(st, name, samples) {
        var i :| 0 <= i < |samples| && !samples[i].suffix.Bare? && Series(name, samples[i].suffix) in st;
        if i < k {
          assert samples[..k][i] == samples[i];
          assert Stolen(st, name, samples[..k]);
        } else {
          assert |Series(name, samples[i].suffix)| > |name|;
        }
      }
    }
  }

  // ----- The two directions -----

  lemma {:induction false} SeenAndExpected(fs: seq<Family>)
    requires AllWellFormed(fs)
    ensures Agree(Expected(fs), Seen(fs))
    decreases |fs|
  {
    if fs != [] {
      SeenAndExpected(fs[..|fs| - 1]);
    }
  }

  lemma SeenGrows(fs: seq<Family>, k: nat)
    requires k <= |fs|
    ensures forall n :: n in Seen(fs[..k]) ==> n in Seen(fs) && Seen(fs)[n] == Seen(fs[..k])[n]
    decreases |fs| - k
  {
    if k == |fs| {
      assert fs[..k] == fs;
    } else {
      SeenGrows(fs, k + 1);
      assert fs[..k + 1][..k] == fs[..k];
    }
  }

  lemma CollisionFreePrefix(fs: seq<Family>)
    requires fs != [] && CollisionFree(Seen(fs))
    ensures CollisionFree(Seen(fs[..|fs| - 1]))
  {
    var pre := Seen(fs[..|fs| - 1]);
    forall p, q | p in pre && q in pre
      ensures !Collide(pre, p, q)
    {
      assert !Collide(Seen(fs), p, q);
    }
  }

  ghost predicate Agree(st: Parsed, seen: map<string, MetricType>) {
    seen.Keys == st.Keys && "" !in st && forall n :: n in seen ==> st[n].typ == Some(seen[n])
  }

  lemma ReadAgain(st: Parsed, seen: map<string, MetricType>, f: Family)
    requires WellFormed(f) && Agree(st, seen) && CollisionFree(seen)
    requires f.name in seen && seen[f.name] == f.typ
    ensures ReadLines(Some(st), SampleLines(f.name, f.samples))
         == Some(st[f.name := st[f.name].(samples := st[f.name].samples + f.samples)])
  {
    forall i | 0 <= i < |f.samples|
      ensures f.samples[i].suffix.Bare? || Series(f.name, f.samples[i].suffix) !in st
    {
      var q := Series(f.name, f.samples[i].suffix);
      assert SampleOk(f.typ, f.samples[i]);
      if !f.samples[i].suffix.Bare? && q in seen {
        assert Collide(seen, f.name, q);
      }
    }
    ReadSamples(st, f.name, f.typ, f.samples);
    FiledHome(st, f.name, f.samples);
  }

  lemma Unclaimed(st: Parsed, seen: map<string, MetricType>, n: string, t: MetricType)
    requires Agree(st, seen) && n !in seen && CollisionFree(seen[n := t])
    ensures !Claimed(st, n)
  {
    forall p | p in st
      ensures !Claims(st, p, n)
    {
      assert !Collide(seen[n := t], p, n);
    }
  }

  lemma AbsorbNew(st: Parsed, f: Family)
    requires f.name !in st
    ensures var mid := Declared(st, f);
            mid[f.name := mid[f.name].(samples := mid[f.name].samples + f.samples)] == Absorb(st, f)
  {
    assert [] + f.samples == f.samples;
  }

  lemma ReadFirst(st: Parsed, seen: map<string, MetricType>, f: Family)
    requires WellFormed(f) && Agree(st, seen) && CollisionFree(seen[f.name := f.typ])
    requires f.name !in seen
    ensures ReadLines(Some(st), FamilyLines(f)) == Some(Absorb(st, f))
  {
    Unclaimed(st, seen, f.name, f.typ);
    ReadFamily(st, f);
    ReadAgain(Declared(st, f), seen[f.name := f.typ], f);
    AbsorbNew(st, f);
  }

  /** Reading what one more family adds to a state that holds just its predecessors. */
  lemma ReadNext(st: Parsed, seen: map<string, MetricType>, f: Family)
    requires WellFormed(f) && Agree(st, seen) && CollisionFree(NoteSeen(seen, f))
    ensures ReadLines(Some(st), EmitLines(seen, f)) == Some(Absorb(st, f))
  {
    if f.name !in seen {
      ReadFirst(st, seen, f);
    } else if seen[f.name] == f.typ {
      ReadAgain(st, seen, f);
    }
  }

  /** Without a collision every family is recovered, in full and in order. */
  lemma {:induction false} ReadsBack(fs: seq<Family>)
    requires AllWellFormed(fs) && CollisionFree(Seen(fs))
    ensures ReadLines(Some(map[]), Emitted(fs)) == Some(Expected(fs))
    decreases |fs|
  {
    if fs != [] {
      var pre := fs[..|fs| - 1];
      CollisionFreePrefix(fs);
      ReadsBack(pre);
      SeenAndExpected(pre);
      ReadNext(Expected(pre), Seen(pre), fs[|fs| - 1]);
      ReadConcat(Some(map[]), Emitted(pre), EmitLines(Seen(pre), fs[|fs| - 1]));
    }
  }

  ghost predicate Smallest(seen: map<string, MetricType>, p: string) {
    forall h :: h in seen ==> !Collide(seen, h, p)
  }

  lemma ForeignTo(seen: map<string, MetricType>, f: Family, p: string)
    requires WellFormed(f) && f.name in seen && seen[f.name] == f.typ && p in seen && p != f.name
    requires Smallest(seen, p)
    ensures Foreign(p, f.name, f.samples)
  {
    forall i | 0 <= i < |f.samples|
      ensures p != Series(f.name, f.samples[i].suffix)
    {
      assert SampleOk(f.typ, f.samples[i]);
      assert Series(f.name, Bare) == f.name;
      assert !Collide(seen, f.name, p);
    }
  }

  /** Writing `p` once more, as a declared family. */
  lemma LosesLater(st: Parsed, seen: map<string, MetricType>, f: Family, all: map<string, MetricType>, p: string)
    requires WellFormed(f) && Agree(st, seen) && f.name in seen && seen[f.name] == f.typ
    requires forall n :: n in seen ==> n in all && all[n] == seen[n]
    requires p in all && Smallest(all, p)
    ensures var r := ReadLines(Some(st), SampleLines(f.name, f.samples));
            && r.Some? && Agree(r.value, seen)
            && (f.name == p ==> |r.value[p].samples| <= |st[p].samples| + |f.samples|)
            && (f.name == p && Stolen(st, p, f.samples) ==> |r.value[p].samples| < |st[p].samples| + |f.samples|)
            && (f.name != p && p in seen ==> r.value[p] == st[p])
  {
    ReadSamples(st, f.name, f.typ, f.samples);
    if f.name == p {
      FiledCount(st, p, f.samples);
    } else if p in seen {
      ForeignTo(all, f, p);
      FiledElsewhere(st, f.name, f.samples, p);
    }
  }

  lemma MustSteal(st: Parsed, f: Family, t: map<string, MetricType>, q: string)
    requires WellFormed(f) && f.name in t && t[f.name] == f.typ && Collide(t, f.name, q) && q in st
    ensures Stolen(st, f.name, f.samples)
  {
    var suf :| Mandatory(f.typ, suf) && q == Series(f.name, suf);
    assert HasSuffix(f.samples, suf);
    var i :| 0 <= i < |f.samples| && f.samples[i].suffix == suf;
  }

  lemma MustClaim(st: Parsed, seen: map<string, MetricType>, all: map<string, MetricType>, p: string, q: string)
    requires Agree(st, seen) && p in seen && Collide(all, p, q) && all[p] == seen[p]
    ensures Claimed(st, q)
  {
    assert Claims(st, p, q);
  }

  /** Writing a family for the first time. */
  lemma LosesAtDeclaration(st: Parsed, seen: map<string, MetricType>, f: Family, all: map<string, MetricType>, p: string, q: string)
    requires WellFormed(f) && Agree(st, seen) && f.name !in seen
    requires f.name in all && all[f.name] == f.typ && forall n :: n in seen ==> n in all && all[n] == seen[n]
    requires Collide(all, p, q) && Smallest(all, p)
    ensures var r := ReadLines(Some(st), FamilyLines(f));
            r.Some? ==>
              && Agree(r.value, seen[f.name := f.typ])
              && (f.name == p ==> |r.value[p].samples| <= |f.samples|)
              && (f.name == p && q in seen ==> |r.value[p].samples| < |f.samples|)
              && (p in seen ==> f.name != q && r.value[p] == st[p])
  {
    hide ReadLines, FamilyLines, SampleLines, Smallest;
    ReadFamily(st, f);
    if !Claimed(st, f.name) {
      var mid := Declared(st, f);
      if p in seen && f.name == q {
        MustClaim(st, seen, all, p, q);
      }
      if f.name == p && q in seen {
        MustSteal(mid, f, all, q);
      }
      LosesLater(mid, seen[f.name := f.typ], f, all, p);
    }
  }

  /** If reading succeeds although `q` is called like a series of `p`, then `p` has lost a
      line by the time both are written; and it gains none, being nobody's series. */
  lemma {:induction false} LosesLine(fs: seq<Family>, all: map<string, MetricType>, p: string, q: string)
    requires AllWellFormed(fs)
    requires forall n :: n in Seen(fs) ==> n in all && all[n] == Seen(fs)[n]
    requires Collide(all, p, q) && Smallest(all, p)
    ensures Agree(Expected(fs), Seen(fs))
    ensures var r := ReadLines(Some(map[]), Emitted(fs));
            r.Some? ==>
              && Agree(r.value, Seen(fs))
              && (p in Seen(fs) ==> |r.value[p].samples| <= |Expected(fs)[p].samples|)
              && (p in Seen(fs) && q in Seen(fs) ==> |r.value[p].samples| < |Expected(fs)[p].samples|)
    decreases |fs|
  {
    SeenAndExpected(fs);
    if fs != [] {
      var k := |fs| - 1;
      var pre, f := fs[..k], fs[k];
      var seen := Seen(pre);
      LosesLine(pre, all, p, q);
      ReadConcat(Some(map[]), Emitted(pre), EmitLines(seen, f));
      var r := ReadLines(Some(map[]), Emitted(pre));
      if r.None? {
        ReadNone(EmitLines(seen, f));
      } else if f.name !in seen {
        LosesAtDeclaration(r.value, seen, f, all, p, q);
      } else if seen[f.name] == f.typ {
        LosesLater(r.value, seen, f, all, p);
      }
    }
  }

  /** Some collision starts from a name that is nobody's series. */
  lemma SmallestCollision(seen: map<string, MetricType>, p: string, q: string) returns (p': string, q': string)
    requires Collide(seen, p, q)
    ensures Collide(seen, p', q') && Smallest(seen, p')
    decreases |p|
  {
    if h :| h in seen && Collide(seen, h, p) {
      assert |h| < |p| by {
        var suf :| Mandatory(seen[h], suf) && p == Series(h, suf);
        assert |SuffixText(suf)| > 0;
      }
      p', q' := SmallestCollision(seen, h, p);
    } else {
      p', q' := p, q;
    }
  }

  // ----- The theorem on the text itself -----

  ghost predicate AllLines(lines: seq<string>) {
    forall i :: 0 <= i < |lines| ==> OneLine(lines[i])
  }

  lemma {:induction false} SampleLinesAreLines(name: string, t: MetricType, samples: seq<Sample>)
    requires ValidName(name) && forall i :: 0 <= i < |samples| ==> SampleOk(t, samples[i])
    ensures AllLines(SampleLines(name, samples))
    decreases |samples|
  {
    if samples != [] {
      SampleLinesAreLines(name, t, samples[..|samples| - 1]);
      ClassifySample(name, t, samples[|samples| - 1]);
    }
  }

  lemma FamilyLinesAreLines(f: Family)
    requires WellFormed(f)
    ensures AllLines(SampleLines(f.name, f.samples)) && AllLines(HelpLines(f) + [TypeLine(f)])
  {
    SampleLinesAreLines(f.name, f.typ, f.samples);
    ClassifyType(f);
    if f.help.Some? { ClassifyHelp(f); }
  }

  lemma {:induction false} EmittedAreLines(fs: seq<Family>)
    requires AllWellFormed(fs)
    ensures AllLines(Emitted(fs))
    decreases |fs|
  {
    if fs != [] {
      EmittedAreLines(fs[..|fs| - 1]);
      FamilyLinesAreLines(fs[|fs| - 1]);
    }
  }

  /** The bytes the handler writes for the families of all visited mounts. */
  function ExportText(fs: seq<Family>): string {
    Unlines(Emitted(fs))
  }

  lemma BlankLine(st: Parsed)
    ensures ReadLine(st, "") == Some(st)
  {
  }

  /** Reading the text is reading its lines. */
  lemma TextIsLines(fs: seq<Family>)
    requires AllWellFormed(fs)
    ensures ReadText(ExportText(fs)) == ReadLines(Some(map[]), Emitted(fs))
  {
    var lines := Emitted(fs);
    EmittedAreLines(fs);
    SplitUnlines(lines);
    hide Emitted, Split, Unlines, ReadLine, AllWellFormed;
    ReadConcat(Some(map[]), lines, [""]);
    var r := ReadLines(Some(map[]), lines);
    if r.Some? {
      ReadOne(r.value, "");
      BlankLine(r.value);
    } else {
      ReadNone([""]);
    }
  }

  /** The export reads back as exactly the intended families, declared once each, if and
      only if no written name is a series name of another written family. */
  lemma ExportReadsBackIff(fs: seq<Family>)
    requires AllWellFormed(fs)
    ensures ReadText(ExportText(fs)) == Some(Expected(fs)) <==> CollisionFree(Seen(fs))
  {
    TextIsLines(fs);
    hide ReadText, ExportText, ReadLines, Emitted, AllWellFormed, Expected, Smallest;
    if CollisionFree(Seen(fs)) {
      ReadsBack(fs);
    } else {
      var p, q :| p in Seen(fs) && q in Seen(fs) && Collide(Seen(fs), p, q);
      p, q := SmallestCollision(Seen(fs), p, q);
      LosesLine(fs, Seen(fs), p, q);
    }
  }

  /** The condition is not always met: a summary and a counter named like its count series. */
  lemma CollisionExample()
    ensures var a := Family("a", Summary, None, [Sample(Sum, " 1"), Sample(Count, " 1")]);
            var b := Family("a_count", Counter, None, [Sample(Bare, " 7")]);
            AllWellFormed([a, b]) && ReadText(ExportText([a, b])) != Some(Expected([a, b]))
  {
    var a := Family("a", Summary, None, [Sample(Sum, " 1"), Sample(Count, " 1")]);
    var b := Family("a_count", Counter, None, [Sample(Bare, " 7")]);
    assert a.samples[0].suffix == Sum && a.samples[1].suffix == Count;
    assert WellFormed(a) && WellFormed(b);
    hide WellFormed, ReadText, ExportText, Expected;
    var fs := [a, b];
    assert fs[..1] == [a] && [a][..0] == [];
    assert Seen([a]) == map["a" := Summary];
    assert Seen(fs) == map["a" := Summary]["a_count" := Counter];
    assert Mandatory(Summary, Count) && "a_count" == Series("a", Count);
    assert Collide(Seen(fs), "a", "a_count");
    ExportReadsBackIff(fs);
  }
}

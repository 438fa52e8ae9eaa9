/** The route-table allocator: parse rt_tables, find or allocate the id of a device's table,
    append its line, and find that line again (pkg/csi_driver/network.go). */
module RouteTable {
  import opened GoStrings

  const STARTING_TABLE_ID := 50
  const MAX_TABLE_ID := 252
  const TABLE_PREFIX := "gcsfusecsi_"

  datatype Entry = Entry(id: int, name: string)

  function TableName(device: string): string {
    TABLE_PREFIX + device
  }

  // ----- Reading the table -----

  function ParseLine(line: string): Option<Entry> {
    var trimmed := TrimSpace(line);
    if trimmed == "" || trimmed[0] == '#' then None
    else
      var parts := Fields(trimmed);
      if |parts| < 2 || (|parts| > 2 && !("#" <= parts[2])) || Atoi(parts[0]).None? then None
      else Some(Entry(Atoi(parts[0]).value, parts[1]))
  }

  /** A line by its words: an id, a name, and then at most a comment. */
  lemma ParseLineIs(line: string)
    ensures var words := Fields(line);
            ParseLine(line)
            == if |words| < 2 || "#" <= words[0] || (|words| > 2 && !("#" <= words[2])) || Atoi(words[0]).None? then None
               else Some(Entry(Atoi(words[0]).value, words[1]))
  {
    FieldsTrimSpace(line);
    FirstWord(line);
    var words := Fields(line);
    assert words != [] ==> ("#" <= words[0] <==> words[0][0] == '#');
    hide Fields, TrimSpace, Atoi;
  }

  /** A comment after the name does not matter; anything else there spoils the line. */
  lemma ParseWithTail(id: nat, name: string, tail: string)
    requires name != "" && NoSpace(name) && id <= MAX_INT64 && (tail != "" ==> IsSpace(tail[0]))
    ensures ParseLine(Itoa(id) + (" " + (name + tail)))
            == if Fields(tail) == [] || "#" <= Fields(tail)[0] then Some(Entry(id, name)) else None
  {
    hide *;
    DigitWord(id);
    AtoiItoa(id);
    ParseLineIs(Itoa(id) + (" " + (name + tail)));
    ThreeWords(Itoa(id), name, tail);
    assert |Fields(tail)| > 0 ==> ([Itoa(id), name] + Fields(tail))[2] == Fields(tail)[0];
  }

  lemma ThreeWords(a: string, b: string, tail: string)
    requires a != "" && b != "" && NoSpace(a) && NoSpace(b) && (tail != "" ==> IsSpace(tail[0]))
    ensures Fields(a + (" " + (b + tail))) == [a, b] + Fields(tail)
  {
    hide *;
    SpaceIsSpace(" " + (b + tail));
    FieldsCons(a, " " + (b + tail));
    FieldsSpace(b + tail);
    FieldsCons(b, tail);
    assert [a] + ([b] + Fields(tail)) == [a, b] + Fields(tail);
  }

  lemma DigitWord(id: nat)
    ensures Itoa(id) != "" && NoSpace(Itoa(id)) && !("#" <= Itoa(id))
  {
    var digits := Itoa(id);
    assert digits == ItoaNat(id) && AllDigits(digits);
    hide Itoa, ItoaNat;
    assert IsDigit(digits[0]);
  }

  lemma SpaceIsSpace(s: string)
    requires s != "" && s[0] == ' '
    ensures IsSpace(s[0])
  {
  }

  lemma FieldsSpace(s: string)
    ensures Fields(" " + s) == Fields(s)
  {
    assert (" " + s)[1..] == s;
    assert TrimLeft(" " + s) == TrimLeft(s);
    hide IsSpace, TrimLeft, WordLength;
  }

  function ParseLines(lines: seq<string>): seq<Entry> {
    if lines == [] then []
    else
      var init := ParseLines(lines[..|lines| - 1]);
      var e := ParseLine(lines[|lines| - 1]);
      if e.Some? then init + [e.value] else init
  }

  function Parse(text: string): seq<Entry> {
    ParseLines(Split(text, '\n'))
  }

  function IdList(es: seq<Entry>): seq<int> {
    seq(|es|, i requires 0 <= i < |es| => es[i].id)
  }

  function NameList(es: seq<Entry>): seq<string> {
    seq(|es|, i requires 0 <= i < |es| => es[i].name)
  }

  method GetRtTables(text: string) returns (ids: seq<int>, names: seq<string>)
    ensures ids == IdList(Parse(text)) && names == NameList(Parse(text))
  {
    hide Split, ParseLine;
    ids, names := [], [];
    var lines := Split(text, '\n');
    var i := 0;
    while i < |lines|
      invariant 0 <= i <= |lines|
      invariant ids == IdList(ParseLines(lines[..i])) && names == NameList(ParseLines(lines[..i]))
    {
      assert lines[..i + 1][..i] == lines[..i];
      var e := ParseLine(lines[i]);
      if e.Some? {
        ids, names := ids + [e.value.id], names + [e.value.name];
      }
      i := i + 1;
    }
    assert lines[..i] == lines;
  }

  // ----- The appended line -----

  function NewLine(id: int, device: string): string {
    "\n" + Line(id, device) + "\n"
  }

  function Line(id: int, device: string): string {
    Itoa(id) + " " + TableName(device)
  }

  lemma NameHasNoSpace(device: string)
    ensures NoSpace(TableName(device)) <==> NoSpace(device)
  {
    var name := TableName(device);
    assert forall i :: 0 <= i < |TABLE_PREFIX| ==> !IsSpace(name[i]);
    assert forall i :: 0 <= i < |device| ==> name[|TABLE_PREFIX| + i] == device[i];
    assert forall i :: |TABLE_PREFIX| <= i < |name| ==> name[i] == device[i - |TABLE_PREFIX|];
  }

  lemma ParseNew(id: nat, name: string)
    requires name != "" && NoSpace(name) && id <= MAX_INT64
    ensures ParseLine(Itoa(id) + " " + name) == Some(Entry(id, name))
  {
    var line := Itoa(id) + " " + name;
    var digits := Itoa(id);
    assert IsDigit(digits[0]) && line[0] == digits[0];
    assert line[|line| - 1] == name[|name| - 1];
    TrimSpaceIs(line);
    FieldsTwo(digits, name);
    AtoiItoa(id);
    hide Fields, TrimSpace, Atoi, Itoa;
  }

  lemma {:induction false} ParseLinesConcat(a: seq<string>, b: seq<string>)
    ensures ParseLines(a + b) == ParseLines(a) + ParseLines(b)
    decreases |b|
  {
    hide ParseLine;
    if b == [] {
      assert a + b == a;
    } else {
      var init := b[..|b| - 1];
      ParseLinesConcat(a, init);
      assert (a + b)[..|a + b| - 1] == a + init;
    }
  }

  lemma {:induction false} NamesHaveNoSpace(lines: seq<string>, i: nat)
    requires i < |ParseLines(lines)|
    ensures NoSpace(ParseLines(lines)[i].name)
    decreases |lines|
  {
    var init, last := lines[..|lines| - 1], lines[|lines| - 1];
    if i < |ParseLines(init)| {
      NamesHaveNoSpace(init, i);
    } else {
      FieldsAreWords(TrimSpace(last), 1);
    }
  }

  lemma SplitNew(text: string, line: string)
    requires '\n' !in line
    ensures Split(text + "\n" + line + "\n", '\n') == Split(text, '\n') + ([line] + [""])
  {
    assert text + "\n" + line + "\n" == text + ['\n'] + (line + ['\n'] + "");
    SplitConcat(text, line + ['\n'] + "", '\n');
    SplitCons(line, "", '\n');
  }

  /** For any table text, with or without a final newline, the appended line adds exactly its
      own entry when the device name is free of white space. */
  lemma AppendReadsBack(text: string, id: nat, device: string)
    requires NoSpace(device) && id <= MAX_INT64
    ensures Parse(text + NewLine(id, device)) == Parse(text) + [Entry(id, TableName(device))]
  {
    var line := Line(id, device);
    LineParses(id, device);
    hide *;
    SplitNew(text, line);
    NewLineIs(text, id, device);
    ParseIs(text);
    ParseIs(text + NewLine(id, device));
    ParseLinesConcat(Split(text, '\n'), [line] + [""]);
    BlankLine();
    ParseTwo(line, "");
  }

  lemma ParseIs(text: string)
    ensures Parse(text) == ParseLines(Split(text, '\n'))
  {
  }

  lemma NewLineIs(text: string, id: int, device: string)
    ensures text + NewLine(id, device) == text + "\n" + Line(id, device) + "\n"
  {
    hide Line;
  }

  lemma LineParses(id: nat, device: string)
    requires NoSpace(device) && id <= MAX_INT64
    ensures '\n' !in Line(id, device)
    ensures ParseLine(Line(id, device)) == Some(Entry(id, TableName(device)))
  {
    NameHasNoSpace(device);
    ParseNew(id, TableName(device));
    WordIsOneLine(TableName(device));
    DigitsAreOneLine(Itoa(id));
    hide ParseLine, TableName, Itoa, NoSpace;
    assert ['\n'] != " ";
  }

  lemma WordIsOneLine(s: string)
    requires NoSpace(s)
    ensures '\n' !in s
  {
  }

  lemma DigitsAreOneLine(s: string)
    requires AllDigits(s)
    ensures '\n' !in s
  {
  }

  lemma BlankLine()
    ensures ParseLine("").None?
  {
  }

  lemma ParseTwo(a: string, b: string)
    requires ParseLine(a).Some? && ParseLine(b).None?
    ensures ParseLines([a] + [b]) == [ParseLine(a).value]
  {
    hide ParseLine;
    assert ([a] + [b])[..1] == [a];
    assert [a][..0] == [];
    assert ParseLines([a]) == [ParseLine(a).value];
  }

  // ----- Allocation -----

  /** The id of the first entry with this name. */
  function Lookup(es: seq<Entry>, name: string): (r: Option<int>)
    ensures r.None? <==> forall i :: 0 <= i < |es| ==> es[i].name != name
    ensures r.Some? ==> Entry(r.value, name) in es
  {
    if es == [] then None
    else if es[0].name == name then Some(es[0].id)
    else Lookup(es[1..], name)
  }

  lemma {:induction false} LookupPrefix(a: seq<Entry>, b: seq<Entry>, name: string)
    ensures Lookup(a + b, name) == if Lookup(a, name).Some? then Lookup(a, name) else Lookup(b, name)
    decreases |a|
  {
    if a == [] {
      assert a + b == b;
    } else {
      LookupPrefix(a[1..], b, name);
      assert (a + b)[1..] == a[1..] + b;
    }
  }

  function Ids(es: seq<Entry>): set<int> {
    set i | 0 <= i < |es| :: es[i].id
  }

  /** The least usable id outside `taken`. */
  ghost predicate FirstFree(taken: set<int>, id: int) {
    && STARTING_TABLE_ID <= id <= MAX_TABLE_ID && id !in taken
    && forall k :: STARTING_TABLE_ID <= k < id ==> k in taken
  }

  ghost predicate Exhausted(taken: set<int>) {
    forall k :: STARTING_TABLE_ID <= k <= MAX_TABLE_ID ==> k in taken
  }

  /** The network manager's operations, any of which may fail. */
  datatype Op = GetRouteTable | UpdateRouteTable | ListTables | ListRoutesForDevice | ListRulesForTable | ListRoutesForTable | AddRule | AddRoute

  ghost predicate TableStep(text: string, text': string, device: string, tables: set<int>, faults: set<Op>, r: Option<int>) {
    var found := Lookup(Parse(text), TableName(device));
    var taken := tables + Ids(Parse(text));
    if GetRouteTable !in faults && found.Some? then text' == text && r == found
    else if GetRouteTable in faults || ListTables in faults || UpdateRouteTable in faults || Exhausted(taken) then
      text' == text && r.None?
    else r.Some? && FirstFree(taken, r.value) && text' == text + NewLine(r.value, device)
  }

  method FindName(names: seq<string>, ids: seq<int>, name: string, ghost es: seq<Entry>) returns (r: Option<int>)
    requires ids == IdList(es) && names == NameList(es)
    ensures r == Lookup(es, name)
  {
    var i := 0;
    while i < |names|
      invariant 0 <= i <= |names|
      invariant Lookup(es, name) == Lookup(es[i..], name)
    {
      assert es[i..][0] == es[i] && es[i..][1..] == es[i + 1..];
      if names[i] == name {
        return Some(ids[i]);
      }
      i := i + 1;
    }
    return None;
  }

  method FindFreeId(taken: set<int>) returns (r: Option<int>)
    ensures r.Some? ==> FirstFree(taken, r.value)
    ensures r.None? ==> Exhausted(taken)
  {
    var id := STARTING_TABLE_ID;
    while id <= MAX_TABLE_ID
      invariant STARTING_TABLE_ID <= id <= MAX_TABLE_ID + 1
      invariant forall k :: STARTING_TABLE_ID <= k < id ==> k in taken
    {
      if id !in taken {
        return Some(id);
      }
      id := id + 1;
    }
    return None;
  }

  datatype Route = Route(device: string, gateway: string, source: string, table: int)

  datatype Rule = Rule(source: string, table: int)

  class Network {
    var table: string
    var rules: seq<Rule>
    var routes: seq<Route>

    method GetGcsFuseTableId(device: string, faults: set<Op>, tables: set<int>) returns (r: Option<int>)
      modifies this`table
      ensures TableStep(old(table), table, device, tables, faults, r)
    {
      hide Parse, NewLine, FirstFree, Exhausted, TableName;
      if GetRouteTable in faults {
        return None;
      }
      var ids, names := GetRtTables(table);
      r := FindName(names, ids, TableName(device), Parse(table));
      if r.Some? || ListTables in faults {
        return;
      }
      var currIds := tables + set i | i in ids;
      IdsAre(Parse(table));
      r := FindFreeId(currIds);
      if r.Some? {
        FreeNotExhausted(currIds, r.value);
        if UpdateRouteTable in faults {
          return None;
        }
        table := table + NewLine(r.value, device);
      }
    }
  }

  lemma IdsAre(es: seq<Entry>)
    ensures Ids(es) == set i | i in IdList(es)
  {
    forall x | x in Ids(es)
      ensures x in IdList(es)
    {
      var i :| 0 <= i < |es| && es[i].id == x;
      assert IdList(es)[i] == x;
    }
  }

  lemma FreeNotExhausted(taken: set<int>, id: int)
    requires FirstFree(taken, id)
    ensures !Exhausted(taken)
  {
  }

  /** The line allocated for a device is found again exactly when its name is free of white space. */
  lemma FoundAgain(text: string, text': string, device: string, tables: set<int>, faults: set<Op>, r: Option<int>)
    requires TableStep(text, text', device, tables, faults, r) && text' != text
    ensures NoSpace(device) ==> Parse(text') == Parse(text) + [Entry(r.value, TableName(device))]
    ensures Lookup(Parse(text'), TableName(device)) == (if NoSpace(device) then r else None)
  {
    var name := TableName(device);
    if NoSpace(device) {
      AppendReadsBack(text, r.value, device);
      LookupPrefix(Parse(text), [Entry(r.value, name)], name);
    } else {
      NameHasNoSpace(device);
      var es := Parse(text');
      forall i | 0 <= i < |es|
        ensures es[i].name != name
      {
        NamesHaveNoSpace(Split(text', '\n'), i);
      }
    }
  }

  // ----- Runs of allocations -----

  datatype Alloc = Alloc(device: string, tables: set<int>, faults: set<Op>, result: Option<int>)

  ghost predicate AllocRun(texts: seq<string>, calls: seq<Alloc>) {
    && |texts| == |calls| + 1
    && (forall i :: 0 <= i < |calls| ==> NoSpace(calls[i].device))
    && forall i :: 0 <= i < |calls| ==>
         TableStep(texts[i], texts[i + 1], calls[i].device, calls[i].tables, calls[i].faults, calls[i].result)
  }

  lemma StepGrows(text: string, text': string, c: Alloc)
    requires NoSpace(c.device) && TableStep(text, text', c.device, c.tables, c.faults, c.result)
    ensures Parse(text) <= Parse(text')
  {
    hide Parse, TableName, NewLine, NoSpace, FirstFree, Exhausted;
    if text' != text {
      FoundAgain(text, text', c.device, c.tables, c.faults, c.result);
    }
  }

  /** Entries are only ever added, at the end. */
  lemma {:induction false} EntriesGrow(texts: seq<string>, calls: seq<Alloc>, i: nat, j: nat)
    requires AllocRun(texts, calls) && i <= j <= |calls|
    ensures Parse(texts[i]) <= Parse(texts[j])
    decreases j
  {
    hide Parse, TableStep, NoSpace;
    if i < j {
      EntriesGrow(texts, calls, i, j - 1);
      StepGrows(texts[j - 1], texts[j - 1 + 1], calls[j - 1]);
    }
  }

  lemma LookupStays(a: seq<Entry>, b: seq<Entry>, name: string)
    requires a <= b && Lookup(a, name).Some?
    ensures Lookup(b, name) == Lookup(a, name)
  {
    assert b == a + b[|a|..];
    LookupPrefix(a, b[|a|..], name);
  }

  lemma StepAnswers(text: string, text': string, c: Alloc)
    requires NoSpace(c.device) && TableStep(text, text', c.device, c.tables, c.faults, c.result) && c.result.Some?
    ensures Lookup(Parse(text'), TableName(c.device)) == c.result
  {
    if text' != text {
      FoundAgain(text, text', c.device, c.tables, c.faults, c.result);
    } else {
      NewLineGrows(text, c.result.value, c.device);
    }
  }

  lemma NewLineGrows(text: string, id: int, device: string)
    ensures text + NewLine(id, device) != text
  {
    assert |text + NewLine(id, device)| > |text|;
  }

  /** A device asked for again gets the same id, and the table does not grow. */
  lemma SameDeviceSameId(texts: seq<string>, calls: seq<Alloc>, i: nat, j: nat)
    requires AllocRun(texts, calls) && i < j < |calls|
    requires calls[i].device == calls[j].device && calls[i].result.Some? && calls[j].result.Some?
    ensures calls[j].result == calls[i].result && texts[j + 1] == texts[j]
  {
    assert TableStep(texts[i], texts[i + 1], calls[i].device, calls[i].tables, calls[i].faults, calls[i].result);
    assert TableStep(texts[j], texts[j + 1], calls[j].device, calls[j].tables, calls[j].faults, calls[j].result);
    hide Parse, TableName, NewLine, FirstFree, Exhausted, Ids, NoSpace;
    StepAnswers(texts[i], texts[i + 1], calls[i]);
    EntriesGrow(texts, calls, i + 1, j);
    LookupStays(Parse(texts[i + 1]), Parse(texts[j]), TableName(calls[i].device));
  }

  /** Ids allocated in a run lie in 50..252, are not those of any entry that was there before,
      and so differ from each other. */
  lemma FreshIds(texts: seq<string>, calls: seq<Alloc>, i: nat, j: nat)
    requires AllocRun(texts, calls) && i < j < |calls|
    requires texts[i + 1] != texts[i] && texts[j + 1] != texts[j]
    ensures calls[i].result.Some? && calls[j].result.Some?
    ensures STARTING_TABLE_ID <= calls[j].result.value <= MAX_TABLE_ID
    ensures calls[j].result.value !in Ids(Parse(texts[0]))
    ensures calls[i].result != calls[j].result
  {
    var c, d := calls[i], calls[j];
    assert TableStep(texts[i], texts[i + 1], c.device, c.tables, c.faults, c.result);
    assert TableStep(texts[j], texts[j + 1], d.device, d.tables, d.faults, d.result);
    FoundAgain(texts[i], texts[i + 1], c.device, c.tables, c.faults, c.result);
    EntriesGrow(texts, calls, i + 1, j);
    EntriesGrow(texts, calls, 0, j);
    IdsGrow(Parse(texts[i + 1]), Parse(texts[j]));
    IdsGrow(Parse(texts[0]), Parse(texts[j]));
    hide Parse, TableName, NewLine, NoSpace;
    var es := Parse(texts[i + 1]);
    assert es[|es| - 1].id in Ids(es);
  }

  lemma IdsGrow(a: seq<Entry>, b: seq<Entry>)
    requires a <= b
    ensures Ids(a) <= Ids(b)
  {
    forall i | 0 <= i < |a|
      ensures a[i].id in Ids(b)
    {
      assert a[i] == b[i];
    }
  }
}

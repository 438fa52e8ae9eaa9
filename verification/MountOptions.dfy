/** Merging mount options (pkg/csi_driver/utils.go: joinMountOptions). */
module MountOptions {
  import opened GoStrings
  import opened SortedStrings

  /** The options whose last value wins. */
  datatype Field = Gid | FileMode | DirMode

  function FieldName(f: Field): string {
    match f
    case Gid => "gid"
    case FileMode => "file-mode"
    case DirMode => "dir-mode"
  }

  const FIELDS: set<Field> := {Gid, FileMode, DirMode}

  datatype Values = Values(gid: string, fileMode: string, dirMode: string) {
    function Get(f: Field): string {
      match f
      case Gid => gid
      case FileMode => fileMode
      case DirMode => dirMode
    }

    function Put(f: Field, v: string): (r: Values)
      ensures forall g: Field :: r.Get(g) == if g == f then v else Get(g)
    {
      match f
      case Gid => this.(gid := v)
      case FileMode => this.(fileMode := v)
      case DirMode => this.(dirMode := v)
    }
  }

  lemma IsField(f: Field)
    ensures f in FIELDS
  {
    match f
    case Gid =>
    case FileMode =>
    case DirMode =>
  }

  const LOCAL_SOCKET_ADDRESS := "experimental-local-socket-address"

  datatype Kind = Empty | Overwrite(field: Field, value: string) | Address | Plain

  function FieldOf(name: string): Option<Field> {
    if name == FieldName(Gid) then Some(Gid)
    else if name == FieldName(FileMode) then Some(FileMode)
    else if name == FieldName(DirMode) then Some(DirMode)
    else None
  }

  /** How `process` treats an option: strings.SplitN(option, "=", 2) decides. */
  function KindOf(o: string): Kind {
    if o == "" then Empty
    else
      var i := IndexOf(o, '=');
      if i < 0 then Plain
      else if FieldOf(o[..i]).Some? then Overwrite(FieldOf(o[..i]).value, o[i + 1..])
      else if o[..i] == LOCAL_SOCKET_ADDRESS then Address
      else Plain
  }

  function Assignment(f: Field, v: string): string {
    FieldName(f) + "=" + v
  }

  lemma KindOfAssignment(f: Field, v: string)
    ensures KindOf(Assignment(f, v)) == Overwrite(f, v)
  {
    var o := Assignment(f, v);
    var n := |FieldName(f)|;
    assert o[..n] == FieldName(f) && o[n] == '=' && o[n + 1..] == v;
    assert '=' !in FieldName(f);
    IndexOfFirst(o, '=', n);
  }

  lemma AssignmentOfKind(o: string, f: Field, v: string)
    requires KindOf(o) == Overwrite(f, v)
    ensures o == Assignment(f, v)
  {
    var i := IndexOf(o, '=');
    assert o == o[..i] + [o[i]] + o[i + 1..];
  }

  /** The kind of "key=value", by its key. */
  lemma KindOfPair(key: string, v: string)
    requires '=' !in key
    ensures KindOf(key + "=" + v)
            == if key == "gid" then Overwrite(Gid, v)
               else if key == "file-mode" then Overwrite(FileMode, v)
               else if key == "dir-mode" then Overwrite(DirMode, v)
               else if key == "experimental-local-socket-address" then Address
               else Plain
  {
    var o := key + "=" + v;
    assert o[..|key|] == key && o[|key|] == '=' && o[|key| + 1..] == v;
    IndexOfFirst(o, '=', |key|);
  }

  lemma KindOfWord(o: string)
    requires '=' !in o
    ensures KindOf(o) == if o == "" then Empty else Plain
  {
  }

  // ----- What a list of options means -----

  /** The plain options, the last value of each field ("" when there is none), and the first
      local socket address option. */
  datatype Meaning = Meaning(plain: set<string>, fields: Values, address: Option<string>)

  const NOTHING := Meaning({}, Values("", "", ""), None)

  function Take(m: Meaning, o: string): Meaning {
    match KindOf(o)
    case Empty => m
    case Overwrite(f, v) => m.(fields := m.fields.Put(f, v))
    case Address => if m.address.Some? then m else m.(address := Some(o))
    case Plain => m.(plain := m.plain + {o})
  }

  function TakeAll(m: Meaning, os: seq<string>): Meaning {
    if os == [] then m else Take(TakeAll(m, os[..|os| - 1]), os[|os| - 1])
  }

  function MeaningOf(os: seq<string>): Meaning {
    TakeAll(NOTHING, os)
  }

  /** The options that express a meaning. */
  function Options(m: Meaning): set<string> {
    m.plain + (if m.address.Some? then {m.address.value} else {})
    + Assigned(m.fields, FIELDS)
  }

  function Assigned(values: Values, fields: set<Field>): set<string> {
    set f | f in fields && values.Get(f) != "" :: Assignment(f, values.Get(f))
  }

  /** One pass over both lists. */
  function Merge(existing: seq<string>, added: seq<string>): seq<string> {
    Sorted(Options(MeaningOf(existing + added)))
  }

  lemma {:induction false} TakeAllConcat(m: Meaning, a: seq<string>, b: seq<string>)
    ensures TakeAll(m, a + b) == TakeAll(TakeAll(m, a), b)
    decreases |b|
  {
    hide Take;
    if b == [] {
      assert a + b == a;
    } else {
      TakeAllConcat(m, a, b[..|b| - 1]);
      assert (a + b)[..|a + b| - 1] == a + b[..|b| - 1];
    }
  }

  // ----- Reading the options of a meaning gives the meaning back -----

  ghost predicate Proper(m: Meaning) {
    && (forall o :: o in m.plain ==> KindOf(o) == Plain)
    && (m.address.Some? ==> KindOf(m.address.value) == Address)
  }

  lemma {:induction false} MeaningProper(m: Meaning, os: seq<string>)
    requires Proper(m)
    ensures Proper(TakeAll(m, os))
  {
    if os != [] {
      MeaningProper(m, os[..|os| - 1]);
      hide KindOf;
    }
  }

  lemma {:induction false} PlainOf(os: seq<string>, o: string)
    ensures o in MeaningOf(os).plain <==> o in os && KindOf(o) == Plain
  {
    hide KindOf;
    if os != [] {
      PlainOf(os[..|os| - 1], o);
      assert os == os[..|os| - 1] + [os[|os| - 1]];
    }
  }

  lemma {:induction false} AddressOf(os: seq<string>)
    ensures var a := MeaningOf(os).address;
            && (a.Some? ==> a.value in os && KindOf(a.value) == Address)
            && (a.None? ==> forall o :: o in os ==> KindOf(o) != Address)
  {
    hide KindOf;
    if os != [] {
      AddressOf(os[..|os| - 1]);
      assert os == os[..|os| - 1] + [os[|os| - 1]];
    }
  }

  lemma {:induction false} FieldsOf(os: seq<string>, f: Field)
    ensures var m := MeaningOf(os);
            && (m.fields.Get(f) != "" ==> Assignment(f, m.fields.Get(f)) in os)
            && (m.fields.Get(f) == "" ==> forall o :: o in os && KindOf(o).Overwrite? && KindOf(o).field == f ==> Assignment(f, "") in os)
  {
    hide KindOf, Assignment;
    if os != [] {
      var init, o := os[..|os| - 1], os[|os| - 1];
      FieldsOf(init, f);
      assert os == init + [o];
      var k := KindOf(o);
      if k.Overwrite? {
        AssignmentOfKind(o, k.field, k.value);
        IsField(k.field);
      }
    }
  }

  lemma OptionsKinds(m: Meaning, o: string)
    requires Proper(m)
    ensures o in Options(m) <==>
            match KindOf(o)
            case Empty => false
            case Overwrite(f, v) => v != "" && m.fields.Get(f) == v
            case Address => m.address == Some(o)
            case Plain => o in m.plain
  {
    hide KindOf, Assignment;
    if f :| f in FIELDS && m.fields.Get(f) != "" && o == Assignment(f, m.fields.Get(f)) {
      KindOfAssignment(f, m.fields.Get(f));
    }
    var k := KindOf(o);
    if k.Overwrite? {
      IsField(k.field);
      AssignmentOfKind(o, k.field, k.value);
    }
  }

  /** Any list of a meaning's options means the same again. */
  lemma Reread(m: Meaning, os: seq<string>)
    requires Proper(m) && forall o :: o in os <==> o in Options(m)
    ensures MeaningOf(os) == m
  {
    var r := MeaningOf(os);
    hide KindOf, Assignment, MeaningOf, Options;
    forall o
      ensures o in r.plain <==> o in m.plain
    {
      PlainOf(os, o);
      OptionsKinds(m, o);
    }
    assert r.plain == m.plain;
    AddressOf(os);
    RereadAddress(m, r, os);
    forall f: Field
      ensures r.fields.Get(f) == m.fields.Get(f)
    {
      RereadField(m, os, f);
    }
    assert r.fields.Get(Gid) == m.fields.Get(Gid) && r.fields.Get(FileMode) == m.fields.Get(FileMode) && r.fields.Get(DirMode) == m.fields.Get(DirMode);
  }

  lemma RereadAddress(m: Meaning, r: Meaning, os: seq<string>)
    requires Proper(m) && (forall o :: o in os <==> o in Options(m)) && r == MeaningOf(os)
    ensures r.address == m.address
  {
    AddressOf(os);
    hide KindOf, Assignment, MeaningOf, Options;
    if r.address.Some? { OptionsKinds(m, r.address.value); }
    if m.address.Some? { OptionsKinds(m, m.address.value); }
  }

  lemma RereadField(m: Meaning, os: seq<string>, f: Field)
    requires Proper(m) && forall o :: o in os <==> o in Options(m)
    ensures MeaningOf(os).fields.Get(f) == m.fields.Get(f)
  {
    FieldsOf(os, f);
    var v, w := MeaningOf(os).fields.Get(f), m.fields.Get(f);
    KindOfAssignment(f, v);
    KindOfAssignment(f, w);
    KindOfAssignment(f, "");
    OptionsKinds(m, Assignment(f, v));
    OptionsKinds(m, Assignment(f, w));
    OptionsKinds(m, Assignment(f, ""));
    hide KindOf, Assignment, MeaningOf, Options;
  }

  /** Joining in stages equals one pass, for all lists. */
  lemma MergeLaw(a: seq<string>, b: seq<string>, c: seq<string>)
    ensures Merge(Merge(a, b), c) == Merge(a, b + c)
  {
    hide *;
    var ab := Merge(a, b);
    MergeMeans(a, b);
    MeaningConcat(ab, c);
    MeaningConcat(a + b, c);
    MergeIs(ab, c);
    MergeIs(a, b + c);
    assert a + b + c == a + (b + c);
  }

  lemma MergeMeans(a: seq<string>, b: seq<string>)
    ensures MeaningOf(Merge(a, b)) == MeaningOf(a + b)
  {
    MeaningProper(NOTHING, a + b);
    hide Proper, Options, Sorted;
    Reread(MeaningOf(a + b), Merge(a, b));
  }

  lemma MeaningConcat(a: seq<string>, b: seq<string>)
    ensures MeaningOf(a + b) == TakeAll(MeaningOf(a), b)
  {
    TakeAllConcat(NOTHING, a, b);
  }

  lemma MergeIs(a: seq<string>, b: seq<string>)
    ensures Merge(a, b) == Sorted(Options(MeaningOf(a + b)))
  {
  }

  /** The last value given for gid, file-mode or dir-mode is the one that counts. */
  lemma {:induction false} LastWins(a: seq<string>, f: Field, v: string, b: seq<string>)
    requires forall i :: 0 <= i < |b| ==> !(KindOf(b[i]).Overwrite? && KindOf(b[i]).field == f)
    ensures MeaningOf(a + [Assignment(f, v)] + b).fields.Get(f) == v
    decreases |b|
  {
    var os := a + [Assignment(f, v)] + b;
    KindOfAssignment(f, v);
    hide KindOf, Assignment;
    if b == [] {
      assert os[..|os| - 1] == a;
    } else {
      LastWins(a, f, v, b[..|b| - 1]);
      assert os[..|os| - 1] == a + [Assignment(f, v)] + b[..|b| - 1];
    }
  }

  /** The first local socket address is the one that counts. */
  lemma {:induction false} FirstWins(a: seq<string>, o: string, b: seq<string>)
    requires KindOf(o) == Address && forall i :: 0 <= i < |a| ==> KindOf(a[i]) != Address
    ensures MeaningOf(a + [o] + b).address == Some(o)
    decreases |b|
  {
    var os := a + [o] + b;
    hide KindOf;
    if b == [] {
      AddressOf(a);
      assert os[..|os| - 1] == a;
    } else {
      FirstWins(a, o, b[..|b| - 1]);
      assert os[..|os| - 1] == a + [o] + b[..|b| - 1];
    }
  }

  ghost predicate LastOf(os: seq<string>, f: Field, i: int) {
    && 0 <= i < |os| && KindOf(os[i]).Overwrite? && KindOf(os[i]).field == f
    && forall j :: i < j < |os| ==> !(KindOf(os[j]).Overwrite? && KindOf(os[j]).field == f)
  }

  ghost predicate FirstAddress(os: seq<string>, i: int) {
    0 <= i < |os| && KindOf(os[i]) == Address && forall j :: 0 <= j < i ==> KindOf(os[j]) != Address
  }

  /** Which options come out of joining two lists: every plain one, the last of each overwritable
      field unless its value is empty, and the first address. */
  lemma MergedOptions(a: seq<string>, b: seq<string>, o: string)
    ensures var os := a + b;
            o in Merge(a, b) <==>
            match KindOf(o)
            case Empty => false
            case Plain => o in os
            case Overwrite(f, v) => v != "" && exists i :: LastOf(os, f, i) && os[i] == o
            case Address => exists i :: FirstAddress(os, i) && os[i] == o
  {
    var os := a + b;
    MeaningProper(NOTHING, os);
    OptionsKinds(MeaningOf(os), o);
    PlainOf(os, o);
    hide KindOf, MeaningOf, Options, Sorted, Proper;
    match KindOf(o) {
      case Overwrite(f, v) => if v != "" { FieldLast(os, f, v, o); }
      case Address => AddressFirst(os, o);
      case _ =>
    }
  }

  lemma FieldLast(os: seq<string>, f: Field, v: string, o: string)
    requires KindOf(o) == Overwrite(f, v) && v != ""
    ensures MeaningOf(os).fields.Get(f) == v <==> exists i :: LastOf(os, f, i) && os[i] == o
  {
    AssignmentOfKind(o, f, v);
    hide KindOf, Assignment, MeaningOf;
    if i :| LastOf(os, f, i) {
      FieldAt(os, f, i);
      if MeaningOf(os).fields.Get(f) == v {
        assert os[i] == o;
      }
      if j :| LastOf(os, f, j) && os[j] == o {
        assert i == j;
        KindOfAssignment(f, v);
      }
    } else {
      NoField(os, f);
    }
  }

  lemma FieldAt(os: seq<string>, f: Field, i: int)
    requires LastOf(os, f, i)
    ensures os[i] == Assignment(f, MeaningOf(os).fields.Get(f)) && KindOf(os[i]) == Overwrite(f, MeaningOf(os).fields.Get(f))
  {
    var v := KindOf(os[i]).value;
    AssignmentOfKind(os[i], f, v);
    hide KindOf, Assignment, MeaningOf;
    assert os == os[..i] + [os[i]] + os[i + 1..];
    LastWins(os[..i], f, v, os[i + 1..]);
  }

  lemma {:induction false} NoField(os: seq<string>, f: Field)
    requires forall i :: !LastOf(os, f, i)
    ensures MeaningOf(os).fields.Get(f) == ""
    decreases |os|
  {
    hide KindOf;
    if os != [] {
      var k := |os| - 1;
      var init := os[..k];
      assert !LastOf(os, f, k);
      forall i
        ensures !LastOf(init, f, i)
      {
        assert !LastOf(os, f, i);
        assert forall j :: 0 <= j < k ==> init[j] == os[j];
      }
      NoField(init, f);
    }
  }

  lemma AddressFirst(os: seq<string>, o: string)
    requires KindOf(o) == Address
    ensures MeaningOf(os).address == Some(o) <==> exists i :: FirstAddress(os, i) && os[i] == o
  {
    AddressOf(os);
    hide KindOf, MeaningOf;
    if i :| FirstAddress(os, i) {
      assert os == os[..i] + [os[i]] + os[i + 1..];
      FirstWins(os[..i], os[i], os[i + 1..]);
    } else if i :| 0 <= i < |os| && KindOf(os[i]) == Address {
      FindFirst(os, i);
    }
  }

  lemma {:induction false} FindFirst(os: seq<string>, i: int)
    requires 0 <= i < |os| && KindOf(os[i]) == Address
    ensures exists k :: FirstAddress(os, k)
    decreases i
  {
    hide KindOf;
    if j :| 0 <= j < i && KindOf(os[j]) == Address {
      FindFirst(os, j);
    } else {
      assert FirstAddress(os, i);
    }
  }

  // ----- The loop of the source -----

  /** `seen`: an address option has been taken. */
  class Joiner {
    var fields: Values
    var seen: bool
    var all: set<string>

    ghost predicate Holds(m: Meaning)
      reads this
    {
      fields == m.fields && seen == m.address.Some? && all == m.plain + (if m.address.Some? then {m.address.value} else {})
    }

    constructor ()
      ensures Holds(NOTHING)
    {
      fields, seen, all := Values("", "", ""), false, {};
    }

    method Process(o: string, ghost m: Meaning)
      requires Holds(m)
      modifies this
      ensures Holds(Take(m, o))
    {
      hide IndexOf, FieldOf;
      if |o| > 0 {
        var i := IndexOf(o, '=');
        if i >= 0 {
          var f := FieldOf(o[..i]);
          if f.Some? {
            fields := fields.Put(f.value, o[i + 1..]);
            return;
          }
          if o[..i] == LOCAL_SOCKET_ADDRESS {
            if seen {
              return;
            }
            seen := true;
          }
        }
        all := all + {o};
      }
    }
  }

  method ProcessAll(j: Joiner, os: seq<string>, ghost m: Meaning)
    requires j.Holds(m)
    modifies j
    ensures j.Holds(TakeAll(m, os))
  {
    hide Take, j.Holds;
    var i := 0;
    while i < |os|
      invariant 0 <= i <= |os|
      invariant j.Holds(TakeAll(m, os[..i]))
    {
      assert os[..i + 1][..i] == os[..i];
      j.Process(os[i], TakeAll(m, os[..i]));
      i := i + 1;
    }
    assert os[..i] == os;
  }

  method JoinMountOptions(existing: seq<string>, added: seq<string>) returns (r: seq<string>)
    ensures r == Merge(existing, added)
  {
    hide *;
    var j := new Joiner();
    ProcessAll(j, existing, NOTHING);
    ProcessAll(j, added, TakeAll(NOTHING, existing));
    TakeAllConcat(NOTHING, existing, added);
    var all := AddFields(j.all, j.fields);
    JoinerOptions(j, TakeAll(NOTHING, existing + added), existing, added);
    return Sorted(all);
  }

  lemma JoinerOptions(j: Joiner, m: Meaning, existing: seq<string>, added: seq<string>)
    requires j.Holds(m) && m == TakeAll(NOTHING, existing + added)
    ensures Sorted(j.all + Assigned(j.fields, FIELDS)) == Merge(existing, added)
  {
    hide TakeAll, Sorted, Assigned;
  }

  method AddFields(base: set<string>, fields: Values) returns (all: set<string>)
    ensures all == base + Assigned(fields, FIELDS)
  {
    hide Assignment;
    all := base;
    var rest := FIELDS;
    while rest != {}
      invariant rest <= FIELDS
      invariant all == base + Assigned(fields, FIELDS - rest)
      decreases |rest|
    {
      var k :| k in rest;
      if fields.Get(k) != "" {
        all := all + {Assignment(k, fields.Get(k))};
      }
      AssignedOneMore(fields, FIELDS - rest, k);
      rest := rest - {k};
      assert FIELDS - rest == FIELDS - (rest + {k}) + {k};
    }
    assert FIELDS - {} == FIELDS;
  }

  lemma AssignedOneMore(values: Values, fields: set<Field>, k: Field)
    ensures Assigned(values, fields + {k}) == Assigned(values, fields) + (if values.Get(k) != "" then {Assignment(k, values.Get(k))} else {})
  {
    hide Assignment;
  }
}

/** Separating raw mount options for mount(8), the sidecar, sysfs and the FUSE page limit
    (pkg/util/util.go: prepareMountOptions, CeilDiv64). */
module FuseOptions {
  import opened GoStrings
  import opened SortedStrings
  import opened CacheBudget

  const MIN_PAGE_SIZE_KB := 4
  const DEFAULT_REQUEST_LIMIT_KB := 16384
  const MAX_PAGES := 65535

  function PageSizeKB(pageSize: nat): (kb: nat)
    ensures kb >= MIN_PAGE_SIZE_KB
    ensures if pageSize < 5 * 1024 then kb == 4 else kb * 1024 <= pageSize < (kb + 1) * 1024
  {
    Max(MIN_PAGE_SIZE_KB, pageSize / 1024)
  }

  /** The options allowed after "o=". */
  predicate AllowedLinux(v: string) {
    v in {"exec", "noexec", "atime", "noatime", "sync", "async", "dirsync"}
  }

  lemma AllowedValues(v: string)
    ensures AllowedLinux(v) <==>
            v == "exec" || v == "noexec" || v == "atime" || v == "noatime" || v == "sync" || v == "async" || v == "dirsync"
  {
  }

  /** What becomes of an option other than "rw" and "ro". */
  datatype Class = Linux(v: string) | ReadAhead(v: string) | RequestLimit(v: string) | Rest

  function After(o: string, prefix: string): Option<string> {
    if prefix < o && '\n' !in o[|prefix|..] then Some(o[|prefix|..]) else None
  }

  function ClassOf(o: string): Class {
    if "o=" <= o then Linux(o[2..])
    else if After(o, "read_ahead_kb=").Some? then ReadAhead(After(o, "read_ahead_kb=").value)
    else if After(o, "node_fuse_max_request_limit_kb=").Some? then RequestLimit(After(o, "node_fuse_max_request_limit_kb=").value)
    else Rest
  }

  /** The options that set a value, written out; an option of no other form is the sidecar's. */
  lemma ClassIs(o: string, v: string)
    ensures ClassOf(o) == Linux(v) <==> o == "o=" + v
    ensures ClassOf(o) == ReadAhead(v) <==> o == "read_ahead_kb=" + v && v != "" && '\n' !in v
    ensures ClassOf(o) == RequestLimit(v) <==> o == "node_fuse_max_request_limit_kb=" + v && v != "" && '\n' !in v
  {
    PrefixesApart(v);
    AfterIs(o, "read_ahead_kb=", v);
    AfterIs(o, "node_fuse_max_request_limit_kb=", v);
    if "o=" <= o { assert o == "o=" + o[2..]; }
    assert "o=" <= "o=" + v && ("o=" + v)[2..] == v;
    hide After;
  }

  lemma AfterIs(o: string, prefix: string, v: string)
    ensures After(o, prefix) == Some(v) <==> o == prefix + v && v != "" && '\n' !in v
  {
    if prefix < o { assert o == prefix + o[|prefix|..]; }
    if o == prefix + v && v != "" { assert o[|prefix|..] == v; }
  }

  lemma PrefixesApart(v: string)
    ensures !("o=" <= "read_ahead_kb=" + v) && !("o=" <= "node_fuse_max_request_limit_kb=" + v)
    ensures After("node_fuse_max_request_limit_kb=" + v, "read_ahead_kb=").None?
  {
    assert ("read_ahead_kb=" + v)[0] == 'r' && ("node_fuse_max_request_limit_kb=" + v)[0] == 'n';
  }

  predicate Good(o: string, pageKB: nat) {
    match ClassOf(o)
    case ReadAhead(v) => Atoi(v).Some? && Atoi(v).value >= 0
    case RequestLimit(v) => Atoi(v).Some? && 0 <= Atoi(v).value <= MAX_PAGES * pageKB
    case _ => true
  }

  // ----- What a list of options asks for -----

  /** The allowed "o=" values, in order. */
  function LinuxValues(os: seq<string>): seq<string> {
    if os == [] then []
    else
      var c := ClassOf(os[|os| - 1]);
      LinuxValues(os[..|os| - 1]) + if c.Linux? && AllowedLinux(c.v) then [c.v] else []
  }

  function LastReadAhead(os: seq<string>): Option<int> {
    if os == [] then None
    else
      var c := ClassOf(os[|os| - 1]);
      if c.ReadAhead? then Atoi(c.v) else LastReadAhead(os[..|os| - 1])
  }

  function LastLimit(os: seq<string>): Option<int> {
    if os == [] then None
    else
      var c := ClassOf(os[|os| - 1]);
      if c.RequestLimit? then Atoi(c.v) else LastLimit(os[..|os| - 1])
  }

  function PagesFor(os: seq<string>, pageKB: nat): int
    requires pageKB > 0
  {
    CeilDiv(if LastLimit(os).Some? then LastLimit(os).value else DEFAULT_REQUEST_LIMIT_KB, pageKB)
  }

  predicate AllGood(os: seq<string>, pageKB: nat) {
    forall i :: 0 <= i < |os| ==> Good(os[i], pageKB)
  }

  /** The options that stay for the sidecar. */
  function Remaining(options: set<string>): set<string> {
    set o | o in options && o != "rw" && o != "ro" && ClassOf(o) == Rest
  }

  function Present(options: set<string>): seq<string> {
    (if "rw" in options then ["rw"] else []) + (if "ro" in options then ["ro"] else [])
  }

  /** Which options are rejected: a read-ahead size that is no number from 0 up, and a request limit
      that is no number from 0 up to 65535 pages. */
  lemma GoodIff(v: string, pageKB: nat)
    requires v != "" && '\n' !in v
    ensures Good("read_ahead_kb=" + v, pageKB) <==> exists n :: Spells(v, n) && 0 <= n <= MAX_INT64
    ensures Good("node_fuse_max_request_limit_kb=" + v, pageKB) <==>
            exists n :: Spells(v, n) && 0 <= n <= MAX_INT64 && n <= 65535 * pageKB
  {
    ClassIs("read_ahead_kb=" + v, v);
    ClassIs("node_fuse_max_request_limit_kb=" + v, v);
    hide ClassOf, Spells, Atoi;
    if Atoi(v).Some? { AtoiSpells(v, Atoi(v).value); }
    if n :| Spells(v, n) && 0 <= n <= MAX_INT64 { AtoiSpells(v, n); }
    if n :| Spells(v, n) && 0 <= n <= MAX_INT64 && n <= 65535 * pageKB { AtoiSpells(v, n); }
  }

  /** The value that counts is that of the last such option of the list. */
  lemma {:induction false} LastReadAheadIs(os: seq<string>, i: nat)
    requires i < |os| && ClassOf(os[i]).ReadAhead? && forall j :: i < j < |os| ==> !ClassOf(os[j]).ReadAhead?
    ensures LastReadAhead(os) == Atoi(ClassOf(os[i]).v)
    decreases |os|
  {
    hide ClassOf, Atoi;
    if i < |os| - 1 { LastReadAheadIs(os[..|os| - 1], i); }
  }

  lemma {:induction false} LastLimitIs(os: seq<string>, i: nat)
    requires i < |os| && ClassOf(os[i]).RequestLimit? && forall j :: i < j < |os| ==> !ClassOf(os[j]).RequestLimit?
    ensures LastLimit(os) == Atoi(ClassOf(os[i]).v)
    decreases |os|
  {
    hide ClassOf, Atoi;
    if i < |os| - 1 { LastLimitIs(os[..|os| - 1], i); }
  }

  datatype Prepared = Prepared(linux: seq<string>, sidecar: seq<string>, readAheadKB: Option<int>, maxPages: int)

  /** The page limit is the least number of pages that covers the request, within 0..65535. */
  lemma {:induction false} LimitInRange(os: seq<string>, pageKB: nat)
    requires AllGood(os, pageKB)
    ensures LastLimit(os).Some? ==> 0 <= LastLimit(os).value <= MAX_PAGES * pageKB
  {
    if os != [] {
      LimitInRange(os[..|os| - 1], pageKB);
      assert Good(os[|os| - 1], pageKB);
    }
  }

  lemma PageLimit(os: seq<string>, pageKB: nat, n: int)
    requires AllGood(os, pageKB) && pageKB >= MIN_PAGE_SIZE_KB
    ensures var request := if LastLimit(os).Some? then LastLimit(os).value else DEFAULT_REQUEST_LIMIT_KB;
            && 0 <= PagesFor(os, pageKB) <= MAX_PAGES
            && request <= PagesFor(os, pageKB) * pageKB
            && (n * pageKB >= request ==> PagesFor(os, pageKB) <= n)
  {
    LimitInRange(os, pageKB);
    var request := if LastLimit(os).Some? then LastLimit(os).value else DEFAULT_REQUEST_LIMIT_KB;
    CeilDivLeast(request, pageKB, n);
    assert MAX_PAGES * pageKB >= request;
    CeilDivLeast(request, pageKB, MAX_PAGES);
  }

  lemma LinuxIs(o: string, v: string)
    ensures ClassOf(o) == Linux(v) <==> o == "o=" + v
  {
    if "o=" <= o { assert o == "o=" + o[2..]; }
  }

  /** The allowed values are exactly those given with "o=". */
  lemma {:induction false} LinuxValuesAre(os: seq<string>, v: string)
    ensures v in LinuxValues(os) <==> AllowedLinux(v) && "o=" + v in os
    decreases |os|
  {
    if os != [] {
      var init, o := os[..|os| - 1], os[|os| - 1];
      LinuxValuesAre(init, v);
      LinuxIs(o, v);
      hide ClassOf, AllowedLinux;
      assert os == init + [o];
    }
  }

  lemma GoodNumbers(o: string, pageKB: nat)
    requires Good(o, pageKB)
    ensures var c := ClassOf(o); (c.ReadAhead? || c.RequestLimit?) ==> Atoi(c.v).Some?
  {
    hide ClassOf, Atoi;
  }

  ghost predicate GivesReadAhead(os: seq<string>) {
    exists i :: 0 <= i < |os| && ClassOf(os[i]).ReadAhead?
  }

  lemma GivesSnoc(os: seq<string>)
    requires os != []
    ensures GivesReadAhead(os) <==> GivesReadAhead(os[..|os| - 1]) || ClassOf(os[|os| - 1]).ReadAhead?
  {
    hide ClassOf;
    var init := os[..|os| - 1];
    if i :| 0 <= i < |init| && ClassOf(init[i]).ReadAhead? {
      assert ClassOf(os[i]).ReadAhead?;
    }
    if i :| 0 <= i < |os| && ClassOf(os[i]).ReadAhead? {
      assert i < |init| ==> ClassOf(init[i]).ReadAhead?;
    }
  }

  /** A read-ahead size is set exactly when some option gives one. */
  lemma {:induction false} ReadAheadSet(os: seq<string>, pageKB: nat)
    requires AllGood(os, pageKB)
    ensures LastReadAhead(os).Some? <==> GivesReadAhead(os)
    decreases |os|
  {
    hide ClassOf, Atoi, Good;
    if os != [] {
      ReadAheadSet(os[..|os| - 1], pageKB);
      GoodNumbers(os[|os| - 1], pageKB);
      GivesSnoc(os);
      hide GivesReadAhead;
    }
  }

  lemma NotASwitch(o: string)
    ensures "o=" + o != "rw" && "o=" + o != "ro"
  {
    assert ("o=" + o)[0] == 'o';
  }

  /** What goes to mount(8) beside the defaults: "rw", "ro" and the allowed "o=" values. */
  lemma LinuxPart(all: set<string>, o: string)
    ensures o in Present(all) <==> o in all && (o == "rw" || o == "ro")
    ensures o in LinuxValues(Sorted(all - {"rw", "ro"})) <==> AllowedLinux(o) && "o=" + o in all
  {
    NotASwitch(o);
    LinuxValuesAre(Sorted(all - {"rw", "ro"}), o);
    hide AllowedLinux, Sorted, LinuxValues;
  }

  /** Where each distinct option goes: "rw", "ro" and allowed "o=" values to mount(8), read-ahead
      sizes to sysfs, and the sidecar gets exactly what is neither of these nor a page limit. */
  lemma OptionsPartition(all: set<string>, pageKB: nat, o: string)
    requires AllGood(Sorted(all - {"rw", "ro"}), pageKB)
    ensures o in Present(all) <==> o in all && (o == "rw" || o == "ro")
    ensures o in LinuxValues(Sorted(all - {"rw", "ro"})) <==> AllowedLinux(o) && "o=" + o in all
    ensures LastReadAhead(Sorted(all - {"rw", "ro"})).Some? <==> exists x :: x in all && ClassOf(x).ReadAhead?
    ensures o in Sorted(Remaining(all)) <==> o in all && o != "rw" && o != "ro" && ClassOf(o) == Rest
  {
    LinuxPart(all, o);
    ReadAheadSet(Sorted(all - {"rw", "ro"}), pageKB);
    ReadAheadGiven(all);
    hide ClassOf, AllowedLinux, LinuxValues, LastReadAhead, AllGood, Present, GivesReadAhead;
  }

  lemma ReadAheadGiven(all: set<string>)
    ensures GivesReadAhead(Sorted(all - {"rw", "ro"})) <==> exists x :: x in all && ClassOf(x).ReadAhead?
  {
    SwitchesAreRest();
    var listed := Sorted(all - {"rw", "ro"});
    hide ClassOf, Sorted;
    if x :| x in all && ClassOf(x).ReadAhead? {
      assert x in listed;
    }
    if i :| 0 <= i < |listed| && ClassOf(listed[i]).ReadAhead? {
      assert listed[i] in listed;
    }
  }

  lemma SwitchesAreRest()
    ensures ClassOf("rw") == Rest && ClassOf("ro") == Rest
  {
    assert "rw"[0] == 'r' && "ro"[0] == 'r';
    assert |"rw"| == 2 && |"ro"| == 2;
  }

  // ----- The loop of the source -----

  method ReadOption(o: string, pageKB: nat, optionSet: set<string>, linux: seq<string>, readAhead: Option<int>, pages: int)
    returns (ok: bool, set': set<string>, linux': seq<string>, readAhead': Option<int>, pages': int)
    requires pageKB > 0
    ensures ok <==> Good(o, pageKB)
    ensures ok ==>
              var c := ClassOf(o);
              && set' == (if c.Rest? then optionSet else optionSet - {o})
              && linux' == linux + (if c.Linux? && AllowedLinux(c.v) then [c.v] else [])
              && readAhead' == (if c.ReadAhead? then Atoi(c.v) else readAhead)
              && (c.RequestLimit? ==> Atoi(c.v).Some?)
              && pages' == (if c.RequestLimit? then CeilDiv(Atoi(c.v).value, pageKB) else pages)
  {
    ok, set', linux', readAhead', pages' := true, optionSet, linux, readAhead, pages;
    var c := ClassOf(o);
    hide ClassOf, Atoi, AllowedLinux;
    match c {
      case Linux(v) =>
        if AllowedLinux(v) {
          linux' := linux' + [v];
        }
        set' := set' - {o};
      case ReadAhead(v) =>
        if Atoi(v).None? || Atoi(v).value < 0 {
          ok := false;
          return;
        }
        readAhead' := Atoi(v);
        set' := set' - {o};
      case RequestLimit(v) =>
        if Atoi(v).None? || Atoi(v).value < 0 || Atoi(v).value > MAX_PAGES * pageKB {
          ok := false;
          return;
        }
        pages' := CeilDiv(Atoi(v).value, pageKB);
        set' := set' - {o};
      case Rest =>
    }
  }

  /** Every distinct option goes to exactly one place: "rw" and "ro" and the allowed "o="
      values to mount(8), the sysfs and page limits to their values, the rest to the sidecar. */
  method PrepareMountOptions(options: seq<string>, defaults: seq<string>, pageSize: nat) returns (r: Option<Prepared>)
    ensures var all := set o | o in options;
            var listed := Sorted(all - {"rw", "ro"});
            var pageKB := PageSizeKB(pageSize);
            && (r.Some? <==> AllGood(listed, pageKB))
            && (r.Some? ==> r.value == Prepared(defaults + Present(all) + LinuxValues(listed), Sorted(Remaining(all)),
                                                LastReadAhead(listed), PagesFor(listed, pageKB)))
  {
    var all := set o | o in options;
    var optionSet := all;
    var linux := defaults;
    if "rw" in optionSet {
      linux := linux + ["rw"];
      optionSet := optionSet - {"rw"};
    }
    if "ro" in optionSet {
      linux := linux + ["ro"];
      optionSet := optionSet - {"ro"};
    }
    assert linux == defaults + Present(all);
    assert optionSet == all - {"rw", "ro"};
    RemainingIs(all);
    hide Sorted, ClassOf, AllGood, LinuxValues, Present, Remaining, Unclaimed, PagesFor, LastReadAhead, PageSizeKB;
    r := ReadOptions(optionSet, linux, PageSizeKB(pageSize));
  }

  lemma RemainingIs(all: set<string>)
    ensures Remaining(all) == Unclaimed(all - {"rw", "ro"})
  {
    hide ClassOf;
  }

  function Unclaimed(options: set<string>): set<string> {
    set o | o in options && ClassOf(o) == Rest
  }

  /** What is left of the option set once `done` has been read. */
  function Left(options: set<string>, done: seq<string>): set<string> {
    set o | o in options && !(o in done && ClassOf(o) != Rest)
  }

  lemma UnclaimedSnoc(options: set<string>, listed: seq<string>, i: nat)
    requires i < |listed|
    ensures Left(options, listed[..i + 1])
            == if ClassOf(listed[i]) == Rest then Left(options, listed[..i]) else Left(options, listed[..i]) - {listed[i]}
  {
    hide ClassOf;
    assert listed[..i + 1] == listed[..i] + [listed[i]];
  }

  lemma ListedSnoc(os: seq<string>, i: nat)
    requires i < |os|
    ensures var c := ClassOf(os[i]);
            && LinuxValues(os[..i + 1]) == LinuxValues(os[..i]) + (if c.Linux? && AllowedLinux(c.v) then [c.v] else [])
            && LastReadAhead(os[..i + 1]) == (if c.ReadAhead? then Atoi(c.v) else LastReadAhead(os[..i]))
            && LastLimit(os[..i + 1]) == (if c.RequestLimit? then Atoi(c.v) else LastLimit(os[..i]))
  {
    hide ClassOf, Atoi, AllowedLinux;
    assert os[..i + 1][..i] == os[..i];
  }

  method ReadOptions(options: set<string>, linux: seq<string>, pageKB: nat) returns (r: Option<Prepared>)
    requires pageKB > 0
    ensures var listed := Sorted(options);
            && (r.Some? <==> AllGood(listed, pageKB))
            && (r.Some? ==> r.value == Prepared(linux + LinuxValues(listed), Sorted(Unclaimed(options)),
                                                LastReadAhead(listed), PagesFor(listed, pageKB)))
  {
    var listed := Sorted(options);
    hide Sorted, ClassOf, Good, AllowedLinux, Atoi, CeilDiv;
    var optionSet, out, readAhead, pages := options, linux, None, CeilDiv(DEFAULT_REQUEST_LIMIT_KB, pageKB);
    var i := 0;
    while i < |listed|
      invariant 0 <= i <= |listed| && forall k :: 0 <= k < i ==> Good(listed[k], pageKB)
      invariant out == linux + LinuxValues(listed[..i])
      invariant readAhead == LastReadAhead(listed[..i]) && pages == PagesFor(listed[..i], pageKB)
      invariant optionSet == Left(options, listed[..i])
    {
      ListedSnoc(listed, i);
      UnclaimedSnoc(options, listed, i);
      hide LinuxValues, LastReadAhead, LastLimit, Left;
      var ok;
      ok, optionSet, out, readAhead, pages := ReadOption(listed[i], pageKB, optionSet, out, readAhead, pages);
      if !ok {
        return None;
      }
      i := i + 1;
    }
    assert listed[..i] == listed;
    assert optionSet == Unclaimed(options) by { hide LinuxValues, LastReadAhead, LastLimit; }
    return Some(Prepared(out, Sorted(optionSet), readAhead, pages));
  }
}

/** Merging recommended mount options behind the user's, and the cache size overrides that
    user options imply (pkg/profiles/recommender.go). Letters are folded as ASCII. */
module RecommendMerge {
  import opened GoStrings
  import opened CacheBudget

  const STAT_KEY := "metadata-cache:stat-cache-max-size-mb"
  const FILE_KEY := "file-cache:max-size-mb"
  const STAT_CLI_KEY := "stat-cache-max-size-mb"
  const FILE_CLI_KEY := "file-cache-max-size-mb"
  const MEDIUM_KEY := "file-cache-medium"

  // ----- Options and their keys -----

  function Count(s: string, c: char): nat {
    if s == "" then 0 else (if s[0] == c then 1 else 0) + Count(s[1..], c)
  }

  predicate ValidOption(o: string) {
    && o != "" && o[0] != ':' && o[|o| - 1] != ':' && o[0] != '=' && o[|o| - 1] != '='
    && Count(o, '=') <= 1
  }

  function LowerChar(c: char): (r: char)
    ensures if 'A' <= c <= 'Z' then 'a' <= r <= 'z' && r as int - 'a' as int == c as int - 'A' as int else r == c
  {
    if 'A' <= c <= 'Z' then (c as int + 32) as char else c
  }

  function Lower(s: string): (r: string)
    ensures |r| == |s| && forall i :: 0 <= i < |s| ==> r[i] == LowerChar(s[i])
  {
    if s == "" then "" else [LowerChar(s[0])] + Lower(s[1..])
  }

  function KeyValue(o: string): (string, string) {
    if '=' in o then
      var i := IndexOf(o, '=');
      (o[..i], o[i + 1..])
    else if ':' in o then
      var i := LastIndexOf(o, ':');
      (o[..i], o[i + 1..])
    else (o, "")
  }

  function Normalize(key: string): string {
    var k := Lower(key);
    if k == STAT_CLI_KEY then STAT_KEY else if k == FILE_CLI_KEY then FILE_KEY else k
  }

  lemma {:induction false} CountTwo(s: string, c: char)
    ensures Count(s, c) >= 1 <==> c in s
    ensures Count(s, c) >= 2 <==> exists i, j :: 0 <= i < j < |s| && s[i] == c && s[j] == c
    decreases |s|
  {
    if s != "" {
      var t := s[1..];
      CountTwo(t, c);
      assert s == [s[0]] + t;
      if i, j :| 0 <= i < j < |t| && t[i] == c && t[j] == c {
        assert s[i + 1] == c && s[j + 1] == c;
      }
      if i, j :| 0 <= i < j < |s| && s[i] == c && s[j] == c {
        assert t[j - 1] == c;
        if i > 0 { assert t[i - 1] == c; }
      }
      if s[0] == c && c in t {
        var j :| 0 <= j < |t| && t[j] == c;
        assert s[0] == c && s[j + 1] == c;
      }
    }
  }

  /** A valid option is not empty, neither begins nor ends with ':' or '=', and has no two '='. */
  lemma ValidIff(o: string)
    ensures ValidOption(o) <==>
            && o != "" && o[0] != ':' && o[0] != '=' && o[|o| - 1] != ':' && o[|o| - 1] != '='
            && !exists i, j :: 0 <= i < j < |o| && o[i] == '=' && o[j] == '='
  {
    CountTwo(o, '=');
    hide Count;
  }

  lemma KeyOfAssigned(key: string, v: string)
    requires '=' !in key
    ensures KeyValue(key + "=" + v) == (key, v)
  {
    var o := key + "=" + v;
    assert o[..|key|] == key && o[|key|] == '=' && o[|key| + 1..] == v;
    IndexOfFirst(o, '=', |key|);
  }

  lemma KeyOfConfig(key: string, v: string)
    requires '=' !in key && '=' !in v && ':' !in v
    ensures KeyValue(key + ":" + v) == (key, v)
  {
    var o := key + ":" + v;
    assert o[..|key|] == key && o[|key|] == ':' && o[|key| + 1..] == v;
    assert forall k :: |key| < k < |o| ==> o[k] == v[k - |key| - 1];
    assert LastIndexOf(o, ':') == |key|;
  }

  lemma KeyOfBare(o: string)
    requires '=' !in o && ':' !in o
    ensures KeyValue(o) == (o, "")
  {
  }

  /** The command line spellings of the two sizes count as their config file spellings; other keys
      count as themselves, in lower case. */
  lemma NormalizeIs(key: string)
    ensures Normalize(key)
            == if Lower(key) == "stat-cache-max-size-mb" then "metadata-cache:stat-cache-max-size-mb"
               else if Lower(key) == "file-cache-max-size-mb" then "file-cache:max-size-mb"
               else Lower(key)
  {
    hide Lower;
  }

  function KeyOf(o: string): string {
    Normalize(KeyValue(o).0)
  }

  function Keys(os: seq<string>): set<string> {
    set i | 0 <= i < |os| :: KeyOf(os[i])
  }

  predicate AllValid(os: seq<string>) {
    forall i :: 0 <= i < |os| ==> ValidOption(os[i])
  }

  // ----- The merge -----

  /** The first system option of every key outside `keys`, in order. */
  function Fresh(system: seq<string>, keys: set<string>): seq<string> {
    if system == [] then []
    else if KeyOf(system[0]) in keys then Fresh(system[1..], keys)
    else [system[0]] + Fresh(system[1..], keys + {KeyOf(system[0])})
  }

  function Merge(user: seq<string>, system: seq<string>): seq<string> {
    user + Fresh(system, Keys(user))
  }

  method MergeMountOptionsOnMissingKeys(user: seq<string>, system: seq<string>) returns (r: Option<seq<string>>)
    ensures r.None? <==> !(AllValid(user) && AllValid(system))
    ensures r.Some? ==> r.value == Merge(user, system)
  {
    hide ValidOption, KeyOf;
    var mountOptions: seq<string>, existing: set<string> := [], {};
    var i := 0;
    while i < |user|
      invariant 0 <= i <= |user| && mountOptions == user[..i] && existing == Keys(user[..i]) && AllValid(user[..i])
    {
      if !ValidOption(user[i]) {
        return None;
      }
      KeysSnoc(user[..i], user[i]);
      assert user[..i + 1] == user[..i] + [user[i]];
      mountOptions := mountOptions + [user[i]];
      existing := existing + {KeyOf(user[i])};
      i := i + 1;
    }
    assert user[..i] == user;
    i := 0;
    while i < |system|
      invariant 0 <= i <= |system| && AllValid(system[..i])
      invariant mountOptions + Fresh(system[i..], existing) == Merge(user, system)
    {
      if !ValidOption(system[i]) {
        return None;
      }
      assert system[i..][0] == system[i] && system[i..][1..] == system[i + 1..];
      var key := KeyOf(system[i]);
      if key !in existing {
        mountOptions := mountOptions + [system[i]];
        existing := existing + {key};
      }
      i := i + 1;
    }
    assert system[..i] == system;
    return Some(mountOptions);
  }

  lemma KeysSnoc(os: seq<string>, o: string)
    ensures Keys(os + [o]) == Keys(os) + {KeyOf(o)}
  {
    hide KeyOf;
    KeysConcat(os, [o]);
    assert Keys([o]) == {KeyOf(o)} by { assert [o][0] == o; }
  }

  lemma KeysConcat(a: seq<string>, b: seq<string>)
    ensures Keys(a + b) == Keys(a) + Keys(b)
  {
    hide KeyOf;
    forall k | k in Keys(b)
      ensures k in Keys(a + b)
    {
      var i :| 0 <= i < |b| && KeyOf(b[i]) == k;
      assert (a + b)[|a| + i] == b[i];
    }
    forall k | k in Keys(a)
      ensures k in Keys(a + b)
    {
      var i :| 0 <= i < |a| && KeyOf(a[i]) == k;
      assert (a + b)[i] == a[i];
    }
  }

  // ----- Laws of the merge -----

  /** Every system key ends up present. */
  lemma {:induction false} FreshCovers(system: seq<string>, keys: set<string>)
    ensures Keys(system) <= keys + Keys(Fresh(system, keys))
    decreases |system|
  {
    hide KeyOf;
    if system != [] {
      var o, rest := system[0], system[1..];
      assert system == [o] + rest;
      KeysConcat([o], rest);
      assert [o][0] == o;
      if KeyOf(o) in keys {
        FreshCovers(rest, keys);
      } else {
        FreshCovers(rest, keys + {KeyOf(o)});
        KeysConcat([o], Fresh(rest, keys + {KeyOf(o)}));
      }
    }
  }

  /** Added options are system options with keys of their own: not in `keys` ... */
  lemma {:induction false} FreshKeys(system: seq<string>, keys: set<string>, i: nat)
    requires i < |Fresh(system, keys)|
    ensures Fresh(system, keys)[i] in system && KeyOf(Fresh(system, keys)[i]) !in keys
    decreases |system|
  {
    hide KeyOf;
    var o, rest := system[0], system[1..];
    if KeyOf(o) in keys {
      FreshKeys(rest, keys, i);
    } else if i > 0 {
      FreshKeys(rest, keys + {KeyOf(o)}, i - 1);
    }
  }

  /** ... and pairwise different. */
  lemma {:induction false} FreshDistinct(system: seq<string>, keys: set<string>, i: nat, j: nat)
    requires i < j < |Fresh(system, keys)|
    ensures KeyOf(Fresh(system, keys)[i]) != KeyOf(Fresh(system, keys)[j])
    decreases |system|
  {
    hide KeyOf;
    var o, rest := system[0], system[1..];
    if KeyOf(o) in keys {
      FreshDistinct(rest, keys, i, j);
    } else if i > 0 {
      FreshDistinct(rest, keys + {KeyOf(o)}, i - 1, j - 1);
    } else {
      FreshKeys(rest, keys + {KeyOf(o)}, j - 1);
    }
  }

  lemma {:induction false} NothingFresh(system: seq<string>, keys: set<string>)
    requires Keys(system) <= keys
    ensures Fresh(system, keys) == []
    decreases |system|
  {
    hide KeyOf;
    if system != [] {
      assert system == [system[0]] + system[1..];
      KeysConcat([system[0]], system[1..]);
      assert [system[0]][0] == system[0];
      assert KeyOf(system[0]) in Keys([system[0]]);
      NothingFresh(system[1..], keys);
    }
  }

  /** Merging the same system options again changes nothing. */
  lemma MergeIdempotent(user: seq<string>, system: seq<string>)
    ensures Merge(Merge(user, system), system) == Merge(user, system)
  {
    hide KeyOf, Keys, Fresh;
    KeysConcat(user, Fresh(system, Keys(user)));
    FreshCovers(system, Keys(user));
    NothingFresh(system, Keys(Merge(user, system)));
  }

  /** The options of one key. */
  function Having(os: seq<string>, key: string): seq<string> {
    if os == [] then []
    else (if KeyOf(os[0]) == key then [os[0]] else []) + Having(os[1..], key)
  }

  lemma {:induction false} HavingConcat(a: seq<string>, b: seq<string>, key: string)
    ensures Having(a + b, key) == Having(a, key) + Having(b, key)
    decreases |a|
  {
    hide KeyOf;
    if a == [] {
      assert a + b == b;
    } else {
      HavingConcat(a[1..], b, key);
      assert (a + b)[1..] == a[1..] + b;
    }
  }

  lemma {:induction false} HavingFresh(system: seq<string>, keys: set<string>, key: string)
    ensures Having(Fresh(system, keys), key) == if key in keys || Having(system, key) == [] then [] else [Having(system, key)[0]]
    decreases |system|
  {
    hide KeyOf;
    if system != [] {
      var o, rest := system[0], system[1..];
      if KeyOf(o) in keys {
        HavingFresh(rest, keys, key);
      } else {
        HavingFresh(rest, keys + {KeyOf(o)}, key);
        assert Fresh(system, keys)[1..] == Fresh(rest, keys + {KeyOf(o)});
      }
    }
  }

  /** A key that the user gives in any spelling keeps exactly the user's options; another key
      gets the first system option. */
  lemma HavingMerge(user: seq<string>, system: seq<string>, key: string)
    ensures Having(Merge(user, system), key)
            == if key in Keys(user) then Having(user, key)
               else if Having(system, key) == [] then [] else [Having(system, key)[0]]
  {
    hide KeyOf, Fresh;
    HavingConcat(user, Fresh(system, Keys(user)), key);
    HavingFresh(system, Keys(user), key);
    if key !in Keys(user) { HavingAbsent(user, key); }
  }

  lemma {:induction false} HavingAbsent(os: seq<string>, key: string)
    requires key !in Keys(os)
    ensures Having(os, key) == []
    decreases |os|
  {
    hide KeyOf;
    if os != [] {
      assert os == [os[0]] + os[1..];
      KeysConcat([os[0]], os[1..]);
      assert [os[0]][0] == os[0];
      assert KeyOf(os[0]) in Keys([os[0]]);
      HavingAbsent(os[1..], key);
    }
  }

  // ----- Cache sizes given by options -----

  /** The last nonempty value given for a size, under either spelling and in any case. */
  function LastSize(os: seq<string>, key: string): Option<string> {
    if os == [] then None
    else
      var o := os[|os| - 1];
      if KeyOf(o) == key && KeyValue(o).1 != "" then Some(KeyValue(o).1) else LastSize(os[..|os| - 1], key)
  }

  predicate SizeParses(o: string) {
    (KeyOf(o) == STAT_KEY || KeyOf(o) == FILE_KEY) && KeyValue(o).1 != "" ==> Atoi(KeyValue(o).1).Some?
  }

  /** Every nonempty size value is a number. */
  predicate SizesParse(os: seq<string>) {
    forall i :: 0 <= i < |os| ==> SizeParses(os[i])
  }

  function SizeOf(v: Option<string>): Option<int> {
    if v.Some? && Atoi(v.value).Some? then Some(MiBToBytes(Atoi(v.value).value)) else None
  }

  lemma SizeKeys(key: string)
    ensures Normalize(key) == STAT_KEY <==> Lower(key) == STAT_KEY || Lower(key) == STAT_CLI_KEY
    ensures Normalize(key) == FILE_KEY <==> Lower(key) == FILE_KEY || Lower(key) == FILE_CLI_KEY
    ensures STAT_KEY != FILE_KEY
  {
    hide Lower;
  }

  lemma LastSizeSnoc(os: seq<string>, i: nat, key: string)
    requires i < |os|
    ensures LastSize(os[..i + 1], key) == if KeyOf(os[i]) == key && KeyValue(os[i]).1 != "" then Some(KeyValue(os[i]).1) else LastSize(os[..i], key)
  {
    hide KeyOf, KeyValue;
    assert os[..i + 1][..i] == os[..i];
  }

  method ParseCacheOverrides(os: seq<string>) returns (ok: bool, statBytes: Option<int>, fileBytes: Option<int>)
    ensures ok <==> SizesParse(os)
    ensures ok ==> statBytes == SizeOf(LastSize(os, STAT_KEY)) && fileBytes == SizeOf(LastSize(os, FILE_KEY))
  {
    hide STAT_KEY, FILE_KEY, STAT_CLI_KEY, FILE_CLI_KEY, Lower, Normalize, KeyValue, Atoi, LastSize;
    ok, statBytes, fileBytes := true, None, None;
    NoSize();
    var i := 0;
    while i < |os|
      invariant 0 <= i <= |os| && forall k :: 0 <= k < i ==> SizeParses(os[k])
      invariant statBytes == SizeOf(LastSize(os[..i], STAT_KEY)) && fileBytes == SizeOf(LastSize(os[..i], FILE_KEY))
    {
      var (key, val) := KeyValue(os[i]);
      SizeKeys(key);
      LastSizeSnoc(os, i, STAT_KEY);
      LastSizeSnoc(os, i, FILE_KEY);
      var k := Lower(key);
      if k == STAT_KEY || k == STAT_CLI_KEY {
        if val != "" {
          if Atoi(val).None? {
            assert !SizeParses(os[i]);
            return false, None, None;
          }
          statBytes := Some(MiBToBytes(Atoi(val).value));
        }
      } else if k == FILE_KEY || k == FILE_CLI_KEY {
        if val != "" {
          if Atoi(val).None? {
            assert !SizeParses(os[i]);
            return false, None, None;
          }
          fileBytes := Some(MiBToBytes(Atoi(val).value));
        }
      }
      i := i + 1;
    }
    assert os[..i] == os;
  }

  lemma NoSize()
    ensures forall key :: LastSize([], key).None?
  {
  }

  // ----- The recommended options -----

  function Sized(key: string, mib: int): string {
    key + ":" + Itoa(mib)
  }

  function MediumName(m: Medium): string {
    match m
    case Ram => "ram"
    case Lssd => "lssd"
    case Other(name) => name
  }

  predicate PlainKey(key: string) {
    key != "" && key[0] != ':' && '=' !in key && forall i :: 0 <= i < |key| ==> !('A' <= key[i] <= 'Z')
  }

  lemma LowerPlain(key: string)
    requires PlainKey(key)
    ensures Lower(key) == key
  {
    assert forall i :: 0 <= i < |key| ==> Lower(key)[i] == key[i];
  }

  lemma StatKeyPlain()
    ensures PlainKey(STAT_KEY) && STAT_KEY != STAT_CLI_KEY && STAT_KEY != FILE_CLI_KEY
  {
  }

  lemma FileKeyPlain()
    ensures PlainKey(FILE_KEY) && FILE_KEY != STAT_CLI_KEY && FILE_KEY != FILE_CLI_KEY
  {
  }

  lemma MediumKeyPlain()
    ensures PlainKey(MEDIUM_KEY) && MEDIUM_KEY != STAT_CLI_KEY && MEDIUM_KEY != FILE_CLI_KEY
  {
  }

  lemma KeysDiffer()
    ensures STAT_KEY != FILE_KEY && STAT_KEY != MEDIUM_KEY && FILE_KEY != MEDIUM_KEY
  {
  }

  lemma {:induction false} NoneCounted(s: string, c: char)
    requires c !in s
    ensures Count(s, c) == 0
    decreases |s|
  {
    if s != "" { NoneCounted(s[1..], c); }
  }

  lemma NumberChars(n: int)
    ensures Itoa(n) != "" && ':' !in Itoa(n) && '=' !in Itoa(n)
  {
    var digits := ItoaNat(if n < 0 then -n else n);
    assert forall i :: 0 <= i < |digits| ==> IsDigit(digits[i]);
    hide ItoaNat;
  }

  lemma SizedOption(key: string, n: int)
    requires PlainKey(key) && key != STAT_CLI_KEY && key != FILE_CLI_KEY
    ensures KeyOf(Sized(key, n)) == key && ValidOption(Sized(key, n))
  {
    var o, v := Sized(key, n), Itoa(n);
    NumberChars(n);
    LowerPlain(key);
    hide Itoa, Lower, STAT_CLI_KEY, FILE_CLI_KEY;
    assert o[..|key|] == key && o[|key|] == ':' && o[|key| + 1..] == v;
    assert '=' !in o;
    NoneCounted(o, '=');
    hide Count;
    assert o[|o| - 1] == v[|v| - 1];
    var i := LastIndexOf(o, ':');
    assert forall k :: |key| < k < |o| ==> o[k] == v[k - |key| - 1];
    assert i == |key|;
  }

  lemma AssignedOption(key: string, v: string)
    requires PlainKey(key) && key != STAT_CLI_KEY && key != FILE_CLI_KEY
    requires v != "" && '=' !in v && v[|v| - 1] != ':'
    ensures KeyOf(key + "=" + v) == key && ValidOption(key + "=" + v)
  {
    LowerPlain(key);
    hide Lower, STAT_CLI_KEY, FILE_CLI_KEY, STAT_KEY, FILE_KEY;
    var o := key + "=" + v;
    assert o[..|key|] == key && o[|key|] == '=' && o[|key| + 1..] == v;
    IndexOfFirst(o, '=', |key|);
    OneCounted(key, v, '=');
    hide Count, IndexOf;
    assert o[|o| - 1] == v[|v| - 1];
  }

  lemma MediumOption(m: Medium)
    requires m == Ram || m == Lssd
    ensures KeyOf(MEDIUM_KEY + "=" + MediumName(m)) == MEDIUM_KEY && ValidOption(MEDIUM_KEY + "=" + MediumName(m))
  {
    MediumKeyPlain();
    hide KeyOf, ValidOption, MEDIUM_KEY, PlainKey, STAT_CLI_KEY, FILE_CLI_KEY;
    AssignedOption(MEDIUM_KEY, MediumName(m));
  }

  lemma {:induction false} OneCounted(a: string, b: string, c: char)
    requires c !in a && c !in b
    ensures Count(a + [c] + b, c) == 1
    decreases |a|
  {
    var s := a + [c] + b;
    if a == "" {
      assert s[1..] == b;
      NoneCounted(b, c);
    } else {
      OneCounted(a[1..], b, c);
      assert s[1..] == a[1..] + [c] + b;
    }
  }

  // ----- The whole recommendation -----

  function StatOption(r: Recommendation): string {
    Sized(STAT_KEY, BytesToMiB(r.statBytes))
  }

  function FileOption(r: Recommendation): string {
    Sized(FILE_KEY, BytesToMiB(r.fileBytes))
  }

  function MediumOptions(r: Recommendation): seq<string> {
    if r.fileBytes != 0 && r.medium.Some? then [MEDIUM_KEY + "=" + MediumName(r.medium.value)] else []
  }

  /** The recommended options, written out. */
  lemma EmittedOptions(r: Recommendation)
    ensures StatOption(r) == "metadata-cache:stat-cache-max-size-mb:" + Itoa(BytesToMiB(r.statBytes))
    ensures FileOption(r) == "file-cache:max-size-mb:" + Itoa(BytesToMiB(r.fileBytes))
    ensures MediumOptions(r) == if r.fileBytes == 0 then [] else match r.medium
                                case None => []
                                case Some(Ram) => ["file-cache-medium=ram"]
                                case Some(Lssd) => ["file-cache-medium=lssd"]
                                case Some(Other(name)) => ["file-cache-medium=" + name]
  {
    hide Itoa, BytesToMiB;
    assert STAT_KEY + ":" == "metadata-cache:stat-cache-max-size-mb:" && FILE_KEY + ":" == "file-cache:max-size-mb:";
    assert MEDIUM_KEY + "=" == "file-cache-medium=";
    assert "file-cache-medium=" + "ram" == "file-cache-medium=ram" && "file-cache-medium=" + "lssd" == "file-cache-medium=lssd";
  }

  /** The options of `key` are the given ones if there are any, else the recommended ones. */
  ghost predicate KeepsOr(result: seq<string>, given: seq<string>, key: string, recommended: seq<string>) {
    Having(result, key) == if key in Keys(given) then Having(given, key) else recommended
  }

  /** The sizes that user or storage class options give are the ones the recommender uses. */
  ghost predicate RecommendedFor(p: Profile, given: seq<string>, rec: Option<Recommendation>) {
    Recommends(p, SizeOf(LastSize(given, STAT_KEY)), SizeOf(LastSize(given, FILE_KEY)), rec)
  }

  lemma MergeStarts(user: seq<string>, system: seq<string>)
    ensures user <= Merge(user, system)
  {
    hide Fresh, Keys;
  }

  lemma StatOptionKey(rec: Recommendation)
    ensures KeyOf(StatOption(rec)) == STAT_KEY && ValidOption(StatOption(rec))
  {
    StatKeyPlain();
    hide KeyOf, ValidOption, Sized, PlainKey, STAT_KEY, STAT_CLI_KEY, FILE_CLI_KEY, BytesToMiB;
    SizedOption(STAT_KEY, BytesToMiB(rec.statBytes));
  }

  lemma FileOptionKey(rec: Recommendation)
    ensures KeyOf(FileOption(rec)) == FILE_KEY && ValidOption(FileOption(rec))
  {
    FileKeyPlain();
    hide KeyOf, ValidOption, Sized, PlainKey, FILE_KEY, STAT_CLI_KEY, FILE_CLI_KEY, BytesToMiB;
    SizedOption(FILE_KEY, BytesToMiB(rec.fileBytes));
  }

  lemma CacheOptionKeys(rec: Recommendation)
    requires rec.medium.Some? ==> rec.medium.value == Ram || rec.medium.value == Lssd
    ensures KeyOf(StatOption(rec)) == STAT_KEY && ValidOption(StatOption(rec))
    ensures KeyOf(FileOption(rec)) == FILE_KEY && ValidOption(FileOption(rec))
    ensures forall i :: 0 <= i < |MediumOptions(rec)| ==> KeyOf(MediumOptions(rec)[i]) == MEDIUM_KEY && ValidOption(MediumOptions(rec)[i])
  {
    hide KeyOf, ValidOption, StatOption, FileOption, STAT_KEY, FILE_KEY, MEDIUM_KEY, MediumName;
    StatOptionKey(rec);
    FileOptionKey(rec);
    if rec.medium.Some? { MediumOption(rec.medium.value); }
  }

  /** The recommended options of one key, whatever the order of the sizes. */
  lemma CacheOptionsHave(rec: Recommendation, sizes: seq<string>)
    requires rec.medium.Some? ==> rec.medium.value == Ram || rec.medium.value == Lssd
    requires sizes == [StatOption(rec), FileOption(rec)] || sizes == [FileOption(rec), StatOption(rec)]
    ensures Having(sizes + MediumOptions(rec), STAT_KEY) == [StatOption(rec)]
    ensures Having(sizes + MediumOptions(rec), FILE_KEY) == [FileOption(rec)]
    ensures Having(sizes + MediumOptions(rec), MEDIUM_KEY) == MediumOptions(rec)
  {
    CacheOptionKeys(rec);
    KeysDiffer();
    hide KeyOf, ValidOption, StatOption, FileOption, MediumOptions, Having, STAT_KEY, FILE_KEY, MEDIUM_KEY;
    if sizes == [StatOption(rec), FileOption(rec)] {
      ThreeHave(StatOption(rec), FileOption(rec), MediumOptions(rec), STAT_KEY, FILE_KEY, MEDIUM_KEY);
    } else {
      ThreeHave(FileOption(rec), StatOption(rec), MediumOptions(rec), FILE_KEY, STAT_KEY, MEDIUM_KEY);
    }
  }

  lemma CacheOptionsValid(rec: Recommendation, sizes: seq<string>)
    requires rec.medium.Some? ==> rec.medium.value == Ram || rec.medium.value == Lssd
    requires sizes == [StatOption(rec), FileOption(rec)] || sizes == [FileOption(rec), StatOption(rec)]
    ensures AllValid(sizes + MediumOptions(rec))
  {
    hide *;
    CacheOptionKeys(rec);
    ThreeValid(sizes[0], sizes[1], MediumOptions(rec));
    assert sizes == [sizes[0], sizes[1]];
  }

  lemma ThreeValid(a: string, b: string, ms: seq<string>)
    requires ValidOption(a) && ValidOption(b) && forall i :: 0 <= i < |ms| ==> ValidOption(ms[i])
    ensures AllValid([a, b] + ms)
  {
    hide ValidOption;
  }

  lemma ThreeHave(a: string, b: string, ms: seq<string>, ka: string, kb: string, km: string)
    requires KeyOf(a) == ka && KeyOf(b) == kb && ka != kb && ka != km && kb != km
    requires forall i :: 0 <= i < |ms| ==> KeyOf(ms[i]) == km
    ensures Having([a, b] + ms, ka) == [a] && Having([a, b] + ms, kb) == [b] && Having([a, b] + ms, km) == ms
  {
    hide KeyOf;
    HavingConcat([a, b], ms, ka);
    HavingConcat([a, b], ms, kb);
    HavingConcat([a, b], ms, km);
    HavingSame(ms, ka, km);
    HavingSame(ms, kb, km);
    HavingSame(ms, km, km);
    assert [a, b][1..] == [b] && [b][1..] == [];
  }

  lemma {:induction false} HavingSame(os: seq<string>, key: string, k: string)
    requires forall i :: 0 <= i < |os| ==> KeyOf(os[i]) == k
    ensures Having(os, key) == if key == k then os else []
    decreases |os|
  {
    hide KeyOf;
    if os != [] { HavingSame(os[1..], key, k); }
  }

  lemma KeyMerges(given: seq<string>, os: seq<string>, key: string, recommended: seq<string>)
    requires Having(os, key) == recommended && |recommended| <= 1
    ensures KeepsOr(Merge(given, os), given, key, recommended)
  {
    HavingMerge(given, os, key);
    hide Having, Merge, Keys;
  }

  lemma CacheOptionsMerge(given: seq<string>, rec: Recommendation, sizes: seq<string>)
    requires rec.medium.Some? ==> rec.medium.value == Ram || rec.medium.value == Lssd
    requires sizes == [StatOption(rec), FileOption(rec)] || sizes == [FileOption(rec), StatOption(rec)]
    ensures AllValid(sizes + MediumOptions(rec))
    ensures CacheOptionsAre(Merge(given, sizes + MediumOptions(rec)), given, rec)
  {
    assert |MediumOptions(rec)| <= 1;
    hide AllValid, Having, Merge, KeepsOr, StatOption, FileOption, MediumOptions, STAT_KEY, FILE_KEY, MEDIUM_KEY;
    var os := sizes + MediumOptions(rec);
    CacheOptionsHave(rec, sizes);
    CacheOptionsValid(rec, sizes);
    KeyMerges(given, os, STAT_KEY, [StatOption(rec)]);
    KeyMerges(given, os, FILE_KEY, [FileOption(rec)]);
    KeyMerges(given, os, MEDIUM_KEY, MediumOptions(rec));
  }

  ghost predicate CacheOptionsAre(result: seq<string>, given: seq<string>, rec: Recommendation) {
    && KeepsOr(result, given, STAT_KEY, [StatOption(rec)])
    && KeepsOr(result, given, FILE_KEY, [FileOption(rec)])
    && KeepsOr(result, given, MEDIUM_KEY, MediumOptions(rec))
  }

  /** The two sizes come from a Go map, so in either order. */
  ghost predicate SizeOptions(rec: Recommendation, sizes: seq<string>) {
    sizes == [StatOption(rec), FileOption(rec)] || sizes == [FileOption(rec), StatOption(rec)]
  }

  /** The user's options, the storage class options of other keys, and the recommended cache
      options of keys that neither gives. */
  ghost predicate Recommended(result: seq<string>, user: seq<string>, system: seq<string>, p: Profile) {
    var given := Merge(user, system);
    exists rec, sizes ::
      && RecommendedFor(p, given, Some(rec)) && SizeOptions(rec, sizes)
      && result == Merge(given, sizes + MediumOptions(rec))
      && CacheOptionsAre(result, given, rec)
  }

  /** Something is wrong with the options, or the file cache search is unanswerable. */
  ghost predicate Rejected(user: seq<string>, system: seq<string>, p: Profile) {
    var given := Merge(user, system);
    || !AllValid(user) || !AllValid(system) || !SizesParse(given)
    || Unanswerable(p, SizeOf(LastSize(given, STAT_KEY)), SizeOf(LastSize(given, FILE_KEY)))
  }

  /** The result starts with the user's options, unchanged, adds the storage class options and
      then the cache options, each only for a key not given yet in any spelling. */
  method MergeRecommended(user: seq<string>, system: seq<string>, p: Profile) returns (r: Option<seq<string>>)
    ensures r.None? <==> Rejected(user, system, p)
    ensures r.Some? ==> user <= r.value && Recommended(r.value, user, system, p)
  {
    r := MergeMountOptionsOnMissingKeys(user, system);
    if r.None? {
      return;
    }
    hide AllValid, SizesParse, Merge, RecommendedFor, Recommends, CacheOptionsAre, Unanswerable, StatOption, FileOption,
         MediumOptions, STAT_KEY, FILE_KEY, LastSize, SizeOf;
    var given := r.value;
    var ok, statOverride, fileOverride := ParseCacheOverrides(given);
    if !ok {
      return None;
    }
    var rec := RecommendCacheConfigs(p, statOverride, fileOverride);
    RecommendedIs(p, given, statOverride, fileOverride, rec);
    if rec.None? {
      return None;
    }
    var sizes: seq<string>;
    if * {
      sizes := [StatOption(rec.value), FileOption(rec.value)];
    } else {
      sizes := [FileOption(rec.value), StatOption(rec.value)];
    }
    CacheOptionsMerge(given, rec.value, sizes);
    var cacheOptions := sizes + MediumOptions(rec.value);
    r := MergeMountOptionsOnMissingKeys(given, cacheOptions);
    MergeStarts(user, system);
    MergeStarts(given, cacheOptions);
    MergeValid(user, system);
    assert SizeOptions(rec.value, sizes);
  }

  lemma RecommendedIs(p: Profile, given: seq<string>, statOverride: Option<int>, fileOverride: Option<int>, rec: Option<Recommendation>)
    requires Recommends(p, statOverride, fileOverride, rec)
    requires statOverride == SizeOf(LastSize(given, STAT_KEY)) && fileOverride == SizeOf(LastSize(given, FILE_KEY))
    ensures RecommendedFor(p, given, rec)
    ensures rec.Some? && rec.value.medium.Some? ==> rec.value.medium.value == Ram || rec.value.medium.value == Lssd
  {
    KnownMedia(p, statOverride, fileOverride, rec);
    hide Recommends, LastSize, SizeOf;
  }

  lemma MergeValid(user: seq<string>, system: seq<string>)
    requires AllValid(user) && AllValid(system)
    ensures AllValid(Merge(user, system))
  {
    hide ValidOption, KeyOf;
    forall i | 0 <= i < |Fresh(system, Keys(user))|
      ensures ValidOption(Fresh(system, Keys(user))[i])
    {
      FreshKeys(system, Keys(user), i);
    }
  }
}

/** Building the nested gcsfuse config from flat "a:b:c" flags
    (pkg/sidecar_mounter/sidecar_mounter_config.go), up to the gcs-auth overwrite. */
module ConfigTree {
  import opened GoStrings

  datatype Value = Int(i: int) | Bool(b: bool) | Text(s: string)

  /** One nested map; the source walks down through a moving reference to such maps. */
  class Level {
    var entries: map<string, Entry>

    constructor ()
      ensures entries == map[]
    {
      entries := map[];
    }
  }

  datatype Entry = Scalar(value: Value) | Sub(level: Level)

  function Tokens(flag: string): (ts: seq<string>)
    ensures |ts| >= 1
  {
    Split(flag, ':')
  }

  lemma TokensInjective(f: string, g: string)
    requires Tokens(f) == Tokens(g)
    ensures f == g
  {
    SplitInjective(f, g, ':');
  }

  function Convert(v: string): Value {
    if Atoi(v).Some? then Int(Atoi(v).value)
    else if ParseBool(v).Some? then Bool(ParseBool(v).value)
    else Text(v)
  }

  /** What a flag's text stands for: the number it spells, if that fits an int64, else the truth
      value, else the text itself. */
  ghost predicate StandsFor(v: string, value: Value) {
    if exists n :: Spells(v, n) && -MAX_INT64 - 1 <= n <= MAX_INT64 then
      value.Int? && Spells(v, value.i)
    else if v == "t" || v == "T" || v == "TRUE" || v == "true" || v == "True" then value == Bool(true)
    else if v == "f" || v == "F" || v == "FALSE" || v == "false" || v == "False" then value == Bool(false)
    else value == Text(v)
  }

  lemma ConvertStandsFor(v: string)
    ensures StandsFor(v, Convert(v))
  {
    if Atoi(v).Some? {
      AtoiSpells(v, Atoi(v).value);
    }
    if n :| Spells(v, n) && -MAX_INT64 - 1 <= n <= MAX_INT64 {
      AtoiSpells(v, n);
    } else {
      assert Atoi(v).None?;
      NotABit(v);
    }
    hide Spells, Atoi;
  }

  lemma NotABit(v: string)
    requires Atoi(v).None?
    ensures v != "0" && v != "1"
  {
    assert AllDigits("0") && AllDigits("1");
    assert DigitsValue("0") == 0 && DigitsValue("1") == 1;
  }

  // ----- What the tree should be, read off the flag map -----

  /** What a reader finds when following a path of tokens. */
  datatype Shape = Absent | Leaf(value: Value) | Branch

  /** Some flag's tokens are a proper prefix of another's. */
  ghost predicate Conflict(flags: map<string, string>) {
    exists f, g :: f in flags && g in flags && Tokens(f) < Tokens(g)
  }

  ghost predicate Inner(keys: set<string>, p: seq<string>) {
    exists f :: f in keys && p < Tokens(f)
  }

  /** No two flags share their tokens, so a leaf's value is that of exactly one flag. */
  ghost predicate LeafOf(flags: map<string, string>, p: seq<string>, f: string) {
    f in flags && Tokens(f) == p
  }

  ghost function Meaning(flags: map<string, string>, p: seq<string>): Shape {
    if exists f :: LeafOf(flags, p, f) then
      var f :| LeafOf(flags, p, f);
      Leaf(Convert(flags[f]))
    else if Inner(flags.Keys, p) then Branch
    else Absent
  }

  // ----- What the tree is -----

  function Walk(level: Level, p: seq<string>): Shape
    reads *
    decreases |p|
  {
    if p == [] then Branch
    else if p[0] !in level.entries then Absent
    else
      match level.entries[p[0]]
      case Scalar(v) => if |p| == 1 then Leaf(v) else Absent
      case Sub(next) => Walk(next, p[1..])
  }

  // ----- The builder's invariant -----

  /** The tree as a value: what is found along each nonempty path that leads somewhere. */
  type Tree = map<seq<string>, Shape>

  /** The level each path leads to. */
  type Paths = map<seq<string>, Level>

  ghost predicate EntryOk(at: Paths, tree: Tree, p: seq<string>, t: string)
    requires p in at
    reads at[p]
  {
    EntriesOk(at[p].entries, at, tree, p, t)
  }

  ghost predicate EntriesOk(entries: map<string, Entry>, at: Paths, tree: Tree, p: seq<string>, t: string) {
    && (t in entries <==> p + [t] in tree)
    && (t in entries ==>
          match entries[t]
          case Scalar(v) => tree[p + [t]] == Leaf(v)
          case Sub(l) => tree[p + [t]] == Branch && p + [t] in at && at[p + [t]] == l)
  }

  /** The heap holds `tree`; every level is reached along one path only. */
  ghost predicate Represents(root: Level, at: Paths, tree: Tree)
    reads at.Values
  {
    && [] in at && at[[]] == root
    && (forall p, q :: p in at && q in at && p != q ==> at[p] != at[q])
    && (forall p :: p in at && p != [] ==> p in tree && tree[p] == Branch)
    && (forall p :: p in tree ==> p != [] && p[..|p| - 1] in at)
    && (forall p, t :: p in at ==> EntryOk(at, tree, p, t))
  }

  ghost predicate IsBranch(tree: Tree, p: seq<string>) {
    p in tree && tree[p] == Branch
  }

  /** `tree` holds the leaves of the flags in `done` and the branches above them, and the
      branches down to `current`. */
  ghost predicate Holds(tree: Tree, flags: map<string, string>, done: set<string>, current: seq<string>) {
    && (forall p :: p in tree ==> PathOk(tree, flags, done, current, p))
    && (forall f :: f in done && f in flags ==> Tokens(f) in tree && tree[Tokens(f)] == Leaf(Convert(flags[f])))
    && (forall f, n :: f in done && 0 < n < |Tokens(f)| ==> IsBranch(tree, Tokens(f)[..n]))
    && (forall n :: 0 < n <= |current| ==> IsBranch(tree, current[..n]))
  }

  ghost predicate PathOk(tree: Tree, flags: map<string, string>, done: set<string>, current: seq<string>, p: seq<string>)
    requires p in tree
  {
    && p != []
    && match tree[p]
       case Absent => false
       case Leaf(v) => exists f :: f in done && f in flags && Tokens(f) == p && v == Convert(flags[f])
       case Branch => Inner(done, p) || p <= current
  }

  /** Entering a level that is already there. */
  lemma Deeper(tree: Tree, flags: map<string, string>, done: set<string>, current: seq<string>, t: string)
    requires Holds(tree, flags, done, current) && IsBranch(tree, current + [t])
    ensures Holds(tree, flags, done, current + [t])
  {
    forall n | 0 < n <= |current| + 1
      ensures IsBranch(tree, (current + [t])[..n])
    {
      assert (current + [t])[..n] == if n <= |current| then current[..n] else current + [t];
    }
  }

  /** Creating a level. */
  lemma NewBranch(tree: Tree, flags: map<string, string>, done: set<string>, current: seq<string>, t: string)
    requires Holds(tree, flags, done, current) && current + [t] !in tree
    ensures Holds(tree[current + [t] := Branch], flags, done, current + [t])
  {
    var tree' := tree[current + [t] := Branch];
    assert Holds(tree', flags, done, current + [t]) by {
      forall p | p in tree'
        ensures PathOk(tree', flags, done, current + [t], p)
      {
        if p != current + [t] { assert PathOk(tree, flags, done, current, p); }
      }
      forall n | 0 < n <= |current| + 1
        ensures IsBranch(tree', (current + [t])[..n])
      {
        assert (current + [t])[..n] == if n <= |current| then current[..n] else current + [t];
      }
    }
  }

  /** Setting the leaf of flag `f` once all the levels above it are there. */
  lemma NewLeaf(tree: Tree, flags: map<string, string>, done: set<string>, f: string)
    requires f in flags && f !in done && done <= flags.Keys
    requires Holds(tree, flags, done, Tokens(f)[..|Tokens(f)| - 1])
    requires Tokens(f) in tree ==> !tree[Tokens(f)].Branch?
    ensures Holds(tree[Tokens(f) := Leaf(Convert(flags[f]))], flags, done + {f}, [])
  {
    hide Tokens, Convert;
    var ts := Tokens(f);
    var above := ts[..|ts| - 1];
    var tree' := tree[ts := Leaf(Convert(flags[f]))];
    forall g | g in done
      ensures Tokens(g) != ts
    {
      if Tokens(g) == ts { TokensInjective(f, g); }
    }
    forall p | p in tree'
      ensures PathOk(tree', flags, done + {f}, [], p)
    {
      if p != ts {
        assert PathOk(tree, flags, done, above, p);
        if tree[p].Branch? && p <= above { assert p < ts; }
      }
    }
    forall g, n | g in done + {f} && 0 < n < |Tokens(g)|
      ensures IsBranch(tree', Tokens(g)[..n])
    {
      if g == f { assert ts[..n] == above[..n]; }
      assert IsBranch(tree, Tokens(g)[..n]);
    }
  }

  lemma ConflictAtLeaf(tree: Tree, flags: map<string, string>, done: set<string>, current: seq<string>, f: string, n: nat)
    requires f in flags && Holds(tree, flags, done, current)
    requires 0 < n < |Tokens(f)| && Tokens(f)[..n] in tree && tree[Tokens(f)[..n]].Leaf?
    ensures Conflict(flags)
  {
    assert PathOk(tree, flags, done, current, Tokens(f)[..n]);
    var g :| g in done && g in flags && Tokens(g) == Tokens(f)[..n];
    assert Tokens(g) < Tokens(f);
  }

  lemma ConflictAtBranch(tree: Tree, flags: map<string, string>, done: set<string>, f: string)
    requires f in flags && done <= flags.Keys && Holds(tree, flags, done, Tokens(f)[..|Tokens(f)| - 1])
    requires Tokens(f) in tree && tree[Tokens(f)].Branch?
    ensures Conflict(flags)
  {
    assert PathOk(tree, flags, done, Tokens(f)[..|Tokens(f)| - 1], Tokens(f));
  }

  /** A missing level is created and linked. */
  method AddLevel(root: Level, curLevel: Level, t: string, ghost p: seq<string>, ghost at: Paths, ghost tree: Tree)
    returns (next: Level, ghost at': Paths)
    requires Represents(root, at, tree) && p in at && at[p] == curLevel && t !in curLevel.entries
    modifies curLevel
    ensures fresh(next) && at' == at[p + [t] := next] && p + [t] !in tree
    ensures Represents(root, at', tree[p + [t] := Branch])
    ensures t in curLevel.entries && curLevel.entries[t] == Sub(next)
  {
    EntryIs(root, at, tree, p, t);
    hide EntriesOk;
    assert p + [t] !in at;
    next := new Level();
    curLevel.entries := curLevel.entries[t := Sub(next)];
    at' := at[p + [t] := next];
    ghost var tree' := tree[p + [t] := Branch];
    assert (p + [t])[..|p|] == p;
    forall q, u | q in at'
      ensures EntryOk(at', tree', q, u)
    {
      if q == p + [t] {
        assert (q + [u])[..|q|] == q;
        assert q !in at;
        NothingYet(at', tree', tree, q, u);
      } else if q == p && u == t {
        Linked(old(curLevel.entries), at, tree, p, t, next);
      } else {
        assert old(EntryOk(at, tree, q, u));
        Undisturbed(at, tree, p, t, next, q, u, old(at[q].entries), at[q].entries);
      }
    }
  }

  lemma Linked(entries: map<string, Entry>, at: Paths, tree: Tree, p: seq<string>, t: string, next: Level)
    ensures EntriesOk(entries[t := Sub(next)], at[p + [t] := next], tree[p + [t] := Branch], p, t)
  {
  }

  lemma NothingYet(at: Paths, tree': Tree, tree: Tree, q: seq<string>, u: string)
    requires q + [u] !in tree && tree' == tree[q := Branch]
    ensures EntriesOk(map[], at, tree', q, u)
  {
    assert |q + [u]| != |q|;
  }

  /** A new level at another place does not disturb this entry. */
  lemma Undisturbed(at: Paths, tree: Tree, p: seq<string>, t: string, next: Level, q: seq<string>, u: string,
                    entries: map<string, Entry>, entries': map<string, Entry>)
    requires EntriesOk(entries, at, tree, q, u) && p + [t] !in at && (q != p || u != t)
    requires entries' == if q == p then entries[t := Sub(next)] else entries
    ensures EntriesOk(entries', at[p + [t] := next], tree[p + [t] := Branch], q, u)
  {
    PathsDiffer(q, u, p, t);
  }

  lemma PathsDiffer(q: seq<string>, u: string, p: seq<string>, t: string)
    ensures q + [u] == p + [t] <==> q == p && u == t
  {
    if q + [u] == p + [t] {
      assert (q + [u])[..|q|] == (p + [t])[..|p|];
    }
  }

  /** The leaf of the current flag is written. */
  method SetLeaf(root: Level, curLevel: Level, t: string, v: Value, ghost p: seq<string>, ghost at: Paths, ghost tree: Tree)
    requires Represents(root, at, tree) && p in at && at[p] == curLevel
    requires t in curLevel.entries ==> curLevel.entries[t].Scalar?
    modifies curLevel
    ensures Represents(root, at, tree[p + [t] := Leaf(v)])
  {
    assert EntryOk(at, tree, p, t);
    assert p + [t] !in at;
    curLevel.entries := curLevel.entries[t := Scalar(v)];
    ghost var tree' := tree[p + [t] := Leaf(v)];
    assert (p + [t])[..|p|] == p;
    forall q, u | q in at
      ensures EntryOk(at, tree', q, u)
    {
      assert old(EntryOk(at, tree, q, u));
      PathsDiffer(q, u, p, t);
    }
  }

  lemma EntryIs(root: Level, at: Paths, tree: Tree, p: seq<string>, t: string)
    requires Represents(root, at, tree) && p in at
    ensures var entries := at[p].entries;
            && (t in entries <==> p + [t] in tree)
            && (t in entries && entries[t].Scalar? ==> tree[p + [t]] == Leaf(entries[t].value))
            && (t in entries && entries[t].Sub? ==> IsBranch(tree, p + [t]) && p + [t] in at && at[p + [t]] == entries[t].level)
  {
    assert EntryOk(at, tree, p, t);
  }

  /** One flag: walk down its tokens, creating levels, and write its leaf. */
  method Insert(root: Level, flags: map<string, string>, f: string, ghost at: Paths, ghost tree: Tree, ghost done: set<string>)
    returns (ok: bool, ghost at': Paths, ghost tree': Tree)
    requires f in flags && f !in done && done <= flags.Keys
    requires [] in at && at[[]] == root
    requires Represents(root, at, tree) && Holds(tree, flags, done, [])
    modifies at.Values
    ensures fresh(at'.Values - at.Values)
    ensures [] in at' && at'[[]] == root
    ensures ok ==> Represents(root, at', tree') && Holds(tree', flags, done + {f}, [])
    ensures !ok ==> Conflict(flags)
  {
    hide Represents, Holds, Conflict, Convert, Tokens;
    at', tree' := at, tree;
    var tokens := Tokens(f);
    var curLevel := root;
    var i := 0;
    while i < |tokens| - 1
      invariant 0 <= i <= |tokens| - 1
      invariant fresh(at'.Values - at.Values)
      invariant Represents(root, at', tree') && Holds(tree', flags, done, tokens[..i])
      invariant [] in at' && at'[[]] == root
      invariant tokens[..i] in at' && curLevel == at'[tokens[..i]]
    {
      var t := tokens[i];
      ghost var p := tokens[..i];
      assert tokens[..i + 1] == p + [t];
      if t !in curLevel.entries {
        NewBranch(tree', flags, done, p, t) by { EntryIs(root, at', tree', p, t); }
        var next;
        next, at' := AddLevel(root, curLevel, t, p, at', tree');
        tree' := tree'[p + [t] := Branch];
        curLevel := next;
      } else {
        EntryIs(root, at', tree', p, t);
        if curLevel.entries[t].Scalar? {
          ConflictAtLeaf(tree', flags, done, p, f, i + 1);
          return false, at', tree';
        }
        Deeper(tree', flags, done, p, t);
        curLevel := curLevel.entries[t].level;
      }
      i := i + 1;
    }
    var t := tokens[i];
    ghost var p := tokens[..i];
    assert tokens == p + [t];
    EntryIs(root, at', tree', p, t);
    if t in curLevel.entries && curLevel.entries[t].Sub? {
      ConflictAtBranch(tree', flags, done, f);
      return false, at', tree';
    }
    NewLeaf(tree', flags, done, f);
    SetLeaf(root, curLevel, t, Convert(flags[f]), p, at', tree');
    tree' := tree'[tokens := Leaf(Convert(flags[f]))];
    return true, at', tree';
  }

  /** Following a path through the heap finds what `tree` says. */
  lemma {:induction false} WalkFinds(root: Level, at: Paths, tree: Tree, p: seq<string>, q: seq<string>)
    requires Represents(root, at, tree) && p in at
    ensures Walk(at[p], q) == if q == [] then Branch else if p + q in tree then tree[p + q] else Absent
    decreases |q|
  {
    hide Represents;
    if q != [] {
      var t := q[0];
      EntryIs(root, at, tree, p, t);
      assert p + q == (p + [t]) + q[1..];
      if t in at[p].entries && at[p].entries[t].Sub? {
        WalkFinds(root, at, tree, p + [t], q[1..]);
        assert q[1..] == [] ==> p + q == p + [t];
      } else if |q| == 1 {
        assert p + q == p + [t];
      } else if p + q in tree {
        LevelAbove(root, at, tree, p + [t], q[1..]);
        LevelIsBranch(root, at, tree, p + [t]);
      }
    }
  }

  lemma LevelIsBranch(root: Level, at: Paths, tree: Tree, p: seq<string>)
    requires Represents(root, at, tree) && p in at && p != []
    ensures IsBranch(tree, p)
  {
  }

  /** Whatever lies below a path lies below a level. */
  lemma {:induction false} LevelAbove(root: Level, at: Paths, tree: Tree, p: seq<string>, q: seq<string>)
    requires Represents(root, at, tree) && q != [] && p + q in tree
    ensures p in at
    decreases |q|
  {
    assert (p + q)[..|p + q| - 1] == p + q[..|q| - 1];
    if |q| == 1 {
      assert p + q[..0] == p;
    } else {
      LevelAbove(root, at, tree, p, q[..|q| - 1]);
    }
  }

  lemma LeafMeaning(flags: map<string, string>, f: string)
    requires f in flags
    ensures Meaning(flags, Tokens(f)) == Leaf(Convert(flags[f]))
  {
    hide Convert, Tokens;
    assert LeafOf(flags, Tokens(f), f);
    forall g | LeafOf(flags, Tokens(f), g)
      ensures g == f
    {
      TokensInjective(f, g);
    }
  }

  lemma PrefixIsBranch(tree: Tree, flags: map<string, string>, p: seq<string>, f: string)
    requires Holds(tree, flags, flags.Keys, []) && p != [] && f in flags && p < Tokens(f)
    ensures IsBranch(tree, p)
  {
    assert Tokens(f)[..|p|] == p;
  }

  /** A tree holding all flags means what the flag map says, and then no two flags conflict. */
  lemma HoldsMeaning(tree: Tree, flags: map<string, string>, p: seq<string>)
    requires Holds(tree, flags, flags.Keys, []) && p != []
    ensures Meaning(flags, p) == if p in tree then tree[p] else Absent
  {
    hide Convert, Tokens;
    if f :| LeafOf(flags, p, f) {
      LeafMeaning(flags, f);
    } else if f :| f in flags && p < Tokens(f) {
      PrefixIsBranch(tree, flags, p, f);
    } else {
      assert p in tree ==> PathOk(tree, flags, flags.Keys, [], p);
      assert forall f :: f in flags ==> !LeafOf(flags, p, f);
    }
  }

  lemma HoldsNoConflict(tree: Tree, flags: map<string, string>)
    requires Holds(tree, flags, flags.Keys, [])
    ensures !Conflict(flags)
  {
    hide Convert, Tokens;
    forall f, g | f in flags && g in flags
      ensures !(Tokens(f) < Tokens(g))
    {
      if Tokens(f) < Tokens(g) { PrefixIsBranch(tree, flags, Tokens(f), g); }
    }
  }

  lemma Finished(root: Level, at: Paths, tree: Tree, flags: map<string, string>)
    requires Represents(root, at, tree) && [] in at && at[[]] == root && Holds(tree, flags, flags.Keys, [])
    ensures !Conflict(flags)
    ensures forall p :: p != [] ==> Walk(root, p) == Meaning(flags, p)
  {
    hide Represents, Holds, Walk, Meaning;
    HoldsNoConflict(tree, flags);
    forall p | p != []
      ensures Walk(root, p) == Meaning(flags, p)
    {
      WalkFinds(root, at, tree, [], p);
      assert [] + p == p;
      HoldsMeaning(tree, flags, p);
    }
  }

  lemma Empty(root: Level, flags: map<string, string>)
    requires root.entries == map[]
    ensures Represents(root, map[[] := root], map[]) && Holds(map[], flags, {}, [])
  {
  }

  /** The outer loop, over the flags in any order. */
  method Fill(root: Level, flags: map<string, string>)
    returns (bad: Option<string>, ghost at: Paths, ghost tree: Tree)
    requires root.entries == map[]
    modifies root
    ensures bad.Some? ==> Conflict(flags)
    ensures bad.None? ==> [] in at && at[[]] == root && Represents(root, at, tree) && Holds(tree, flags, flags.Keys, [])
  {
    hide *;
    bad, at, tree := None, map[[] := root], map[];
    ghost var done: set<string> := {};
    Empty(root, flags);
    var rest := flags.Keys;
    while rest != {}
      invariant rest !! done && rest + done == flags.Keys
      invariant [] in at && at[[]] == root && fresh(at.Values - {root})
      invariant Represents(root, at, tree) && Holds(tree, flags, done, [])
      decreases |rest|
    {
      var f :| f in rest;
      var ok;
      ok, at, tree := Insert(root, flags, f, at, tree, done);
      if !ok {
        return Some(f), at, tree;
      }
      rest, done := rest - {f}, done + {f};
    }
    assert done == flags.Keys;
  }

  lemma FlagsFound(root: Level, flags: map<string, string>)
    requires forall p :: p != [] ==> Walk(root, p) == Meaning(flags, p)
    ensures forall f :: f in flags ==> var found := Walk(root, Split(f, ':')); found.Leaf? && StandsFor(flags[f], found.value)
  {
    hide StandsFor, Walk, Meaning, Convert;
    forall f | f in flags
      ensures var found := Walk(root, Split(f, ':')); found.Leaf? && StandsFor(flags[f], found.value)
    {
      assert Tokens(f) != [];
      LeafMeaning(flags, f);
      ConvertStandsFor(flags[f]);
    }
  }

  /** For every flag map and every iteration order: building fails exactly when the map is
      missing or two flags conflict, and otherwise the tree means what the flag map says. */
  method PrepareConfigFile(configFileFlagMap: Option<map<string, string>>) returns (r: Result<Level>)
    ensures r.Failure? <==> configFileFlagMap.None? || Conflict(configFileFlagMap.value)
    ensures r.Success? ==> forall p :: p != [] ==> Walk(r.value, p) == Meaning(configFileFlagMap.value, p)
    ensures r.Success? ==> forall f :: f in configFileFlagMap.value ==>
              var found := Walk(r.value, Split(f, ':')); found.Leaf? && StandsFor(configFileFlagMap.value[f], found.value)
  {
    if configFileFlagMap.None? {
      return Failure("got empty config file flag map");
    }
    hide *;
    var root := new Level();
    var bad;
    ghost var at, tree;
    bad, at, tree := Fill(root, configFileFlagMap.value);
    if bad.Some? {
      return Failure("invalid config file flag: " + bad.value);
    }
    Finished(root, at, tree, configFileFlagMap.value);
    FlagsFound(root, configFileFlagMap.value);
    return Success(root);
  }

  /** Of a map without conflicts, the paths to leaves, joined by ':', are exactly the flags. */
  lemma LeavesAreFlags(flags: map<string, string>, f: string, v: Value)
    ensures f in flags && Convert(flags[f]) == v <==> Meaning(flags, Tokens(f)) == Leaf(v)
    ensures forall p :: Meaning(flags, p).Leaf? ==> p == Tokens(Join(p, ':')) && Join(p, ':') in flags
  {
    forall p | Meaning(flags, p).Leaf?
      ensures p == Tokens(Join(p, ':')) && Join(p, ':') in flags
    {
      var g :| LeafOf(flags, p, g);
      JoinSplit(g, ':');
    }
    if f in flags {
      LeafMeaning(flags, f);
    } else {
      JoinSplit(f, ':');
    }
  }

  /** Integers survive: what the driver prints as a decimal int64 comes back as that number. */
  lemma IntegersConvert(n: int)
    requires -MAX_INT64 - 1 <= n <= MAX_INT64
    ensures Convert(Itoa(n)) == Int(n)
  {
    AtoiItoa(n);
  }
}

/** The metrics manager's three structures kept in step: the set of registered paths, the
    collector list and the Prometheus registry (pkg/metrics/metrics.go). */
module CollectorRegistry {
  /** What the registry hashes of a collector's description. */
  datatype Identity = Identity(podUID: string, volumeName: string)

  datatype Collector = Collector(mountPath: string, id: Identity)

  function Paths(cs: seq<Collector>): set<string> {
    set i | 0 <= i < |cs| :: cs[i].mountPath
  }

  function Ids(cs: seq<Collector>): set<Identity> {
    set i | 0 <= i < |cs| :: cs[i].id
  }

  predicate Distinct(cs: seq<Collector>) {
    forall i, j :: 0 <= i < j < |cs| ==> cs[i].mountPath != cs[j].mountPath && cs[i].id != cs[j].id
  }

  function Without(cs: seq<Collector>, i: nat): seq<Collector>
    requires i < |cs|
  {
    cs[..i] + cs[i + 1..]
  }

  /** The collectors of the other paths, in their order. */
  function Others(cs: seq<Collector>, path: string): seq<Collector> {
    if cs == [] then []
    else if cs[0].mountPath == path then Others(cs[1..], path)
    else [cs[0]] + Others(cs[1..], path)
  }

  lemma {:induction false} OthersAbsent(cs: seq<Collector>, path: string)
    requires path !in Paths(cs)
    ensures Others(cs, path) == cs
  {
    if cs != [] {
      assert cs[0].mountPath in Paths(cs);
      assert forall i :: 0 <= i < |cs[1..]| ==> cs[1..][i] == cs[i + 1];
      OthersAbsent(cs[1..], path);
    }
  }

  lemma {:induction false} OthersPresent(cs: seq<Collector>, i: nat)
    requires Distinct(cs) && i < |cs|
    ensures Others(cs, cs[i].mountPath) == Without(cs, i)
  {
    var rest := cs[1..];
    assert forall k :: 0 <= k < |rest| ==> rest[k] == cs[k + 1];
    if i == 0 {
      OthersAbsent(rest, cs[0].mountPath);
      assert Without(cs, 0) == rest;
    } else {
      OthersPresent(rest, i - 1);
      assert Without(cs, i) == [cs[0]] + Without(rest, i - 1);
    }
  }

  lemma WithoutOne(cs: seq<Collector>, i: nat)
    requires Distinct(cs) && i < |cs|
    ensures var r := Without(cs, i);
            Distinct(r) && Paths(r) == Paths(cs) - {cs[i].mountPath} && Ids(r) == Ids(cs) - {cs[i].id}
  {
    var r := Without(cs, i);
    assert forall k :: 0 <= k < |r| ==> r[k] == if k < i then cs[k] else cs[k + 1];
    forall k | 0 <= k < |cs| && k != i
      ensures cs[k].mountPath in Paths(r) && cs[k].id in Ids(r)
    {
      var k' := if k < i then k else k - 1;
      assert r[k'] == cs[k];
    }
  }

  lemma OneMore(cs: seq<Collector>, c: Collector)
    requires Distinct(cs) && c.mountPath !in Paths(cs) && c.id !in Ids(cs)
    ensures var r := cs + [c];
            Distinct(r) && Paths(r) == Paths(cs) + {c.mountPath} && Ids(r) == Ids(cs) + {c.id}
  {
    var r := cs + [c];
    assert r[|cs|] == c;
    assert forall k :: 0 <= k < |cs| ==> r[k] == cs[k];
  }

  lemma {:induction false} CountPaths(cs: seq<Collector>)
    requires Distinct(cs)
    ensures |Paths(cs)| == |cs|
  {
    if cs != [] {
      var last := |cs| - 1;
      WithoutOne(cs, last);
      assert Without(cs, last) == cs[..last];
      CountPaths(cs[..last]);
      assert Paths(cs) == Paths(cs[..last]) + {cs[last].mountPath};
    }
  }

  method IndexOfPath(cs: seq<Collector>, path: string) returns (i: int)
    ensures -1 <= i < |cs|
    ensures i >= 0 ==> cs[i].mountPath == path
    ensures i < 0 ==> path !in Paths(cs)
  {
    i := 0;
    while i < |cs|
      invariant 0 <= i <= |cs|
      invariant forall k :: 0 <= k < i ==> cs[k].mountPath != path
    {
      if cs[i].mountPath == path {
        return;
      }
      i := i + 1;
    }
    return -1;
  }

  class Manager {
    const limit: int  // zero registers nothing, negative is unlimited
    var registered: set<string>
    var collectors: seq<Collector>
    var registry: set<Identity>

    ghost predicate Valid()
      reads this
    {
      && registered == Paths(collectors) && registry == Ids(collectors) && Distinct(collectors)
      && (limit >= 0 ==> |collectors| <= limit)
    }

    constructor (limit: int)
      ensures Valid() && this.limit == limit && collectors == []
    {
      this.limit, registered, collectors, registry := limit, {}, [], {};
    }

    ghost predicate Has(path: string, id: Identity)
      reads this
    {
      Collector(path, id) in collectors
    }

    /** The refusals: no collectors at all, this one is there already, or a new path finds no
        space. A path whose identity changed is never refused for lack of space. */
    ghost predicate Refused(path: string, id: Identity)
      reads this
    {
      limit == 0 || Has(path, id) || (path !in registered && 0 < limit <= |collectors|)
    }

    method RegisterMetricsCollector(path: string, id: Identity)
      requires Valid()
      modifies this
      ensures Valid()
      ensures old(Refused(path, id)) ==> collectors == old(collectors)
      ensures !old(Refused(path, id)) ==>
                var rest := Others(old(collectors), path);
                collectors == if id in Ids(rest) then rest else rest + [Collector(path, id)]
    {
      if limit == 0 {
        return;
      }
      if path in registered {
        var i := IndexOfPath(collectors, path);
        if i < 0 {
          assert false; // the path set and the list agree
          return;
        }
        Pinpoint(collectors, i, id);
        if collectors[i].id == id {
          return;
        }
        OthersPresent(collectors, i);
        WithoutOne(collectors, i);
        registry := registry - {collectors[i].id};
        registered := registered - {path};
        collectors := Without(collectors, i);
      } else {
        OthersAbsent(collectors, path);
        Absent(collectors, path, id);
      }
      CountPaths(collectors);
      if limit > 0 && |registered| >= limit {
        return;
      }
      if id in registry {
        return;
      }
      OneMore(collectors, Collector(path, id));
      registry := registry + {id};
      registered := registered + {path};
      collectors := collectors + [Collector(path, id)];
    }

    method UnregisterMetricsCollector(path: string)
      requires Valid()
      modifies this
      ensures Valid() && collectors == Others(old(collectors), path)
    {
      var i := IndexOfPath(collectors, path);
      if i < 0 {
        OthersAbsent(collectors, path);
        return;
      }
      OthersPresent(collectors, i);
      WithoutOne(collectors, i);
      registry := registry - {collectors[i].id};
      registered := registered - {path};
      collectors := Without(collectors, i);
    }
  }

  lemma Pinpoint(cs: seq<Collector>, i: nat, id: Identity)
    requires Distinct(cs) && i < |cs|
    ensures Collector(cs[i].mountPath, id) in cs <==> cs[i].id == id
  {
    if Collector(cs[i].mountPath, id) in cs {
      var k :| 0 <= k < |cs| && cs[k] == Collector(cs[i].mountPath, id);
    }
  }

  lemma Absent(cs: seq<Collector>, path: string, id: Identity)
    requires path !in Paths(cs)
    ensures Collector(path, id) !in cs
  {
    assert forall k :: 0 <= k < |cs| ==> cs[k].mountPath in Paths(cs);
  }
}

/** The encoder that produces the streamed text (pkg/metrics/metrics.go:354-402) and the
    loop that visits the mounts (pkg/metrics/metrics.go:263-296). */
module MetricsEncoder {
  import opened GoStrings
  import opened LineWriter
  import opened MetricsText
  import opened MetricsRoundTrip

  /** Told to skip, the writer turns a declared family without HELP into its samples. */
  lemma KeptBare(f: Family)
    requires WellFormed(f) && f.help.None?
    ensures Kept(true, Unlines(FamilyLines(f))) == Unlines(SampleLines(f.name, f.samples))
    ensures '\n' in Unlines(FamilyLines(f))
  {
    assert FamilyLines(f) == [TypeLine(f)] + SampleLines(f.name, f.samples);
    ClassifyType(f);
    var line, samples := TypeLine(f), SampleLines(f.name, f.samples);
    assert ([line] + samples)[1..] == samples;
    DropLine(line, Unlines(samples));
  }

  /** Writes the families of all mounts into one response, declaring each name once. */
  class FamilyEncoder {
    const sw: SkipFirstLineWriter
    var seenFamilies: map<string, MetricType>
    /** What has been encoded so far. */
    ghost var done: seq<Family>

    constructor (limit: Option<nat>)
      ensures Valid() && fresh(sw) && sw.limit == limit && done == []
    {
      sw := new SkipFirstLineWriter(limit);
      seenFamilies, done := map[], [];
    }

    ghost predicate Valid()
      reads this, sw
    {
      && AllWellFormed(done)
      && seenFamilies == Seen(done)
      && sw.out == ExportText(done) && Fits(sw.limit, sw.out)
      && !sw.skipNextLine
    }

    /** Adds one family to the response, as far as the sink takes it. */
    method Encode(mf: Family) returns (ok: bool)
      requires Valid() && WellFormed(mf)
      modifies this, sw
      ensures done == old(done) + [mf]
      ensures sw.out == Clip(sw.limit, ExportText(done))
      ensures ok <==> Fits(sw.limit, ExportText(done))
      ensures ok ==> Valid()
    {
      EncodedText(done, mf);
      hide WellFormed, Unlines, FamilyLines, ExportText, Seen, Kept, Fits, Clip, StillSkipping;
      ClipMore(sw.limit, sw.out, "");
      done := done + [mf];
      var name, typ := mf.name, mf.typ;
      ok := true;
      if name !in seenFamilies {
        seenFamilies := seenFamilies[name := typ];
        ok := sw.WriteInChunks(Unlines(FamilyLines(mf)));
      } else if seenFamilies[name] == typ {
        var bare := mf.(help := None);
        sw.skipNextLine := true;
        ok := sw.WriteInChunks(Unlines(FamilyLines(bare)));
        sw.skipNextLine := false;
      }
    }
  }

  /** What the writer must let pass for one more family. */
  lemma EncodedText(done: seq<Family>, f: Family)
    requires WellFormed(f)
    ensures var seen, out := Seen(done), ExportText(done);
            && Seen(done + [f]) == (if f.name in seen then seen else seen[f.name := f.typ])
            && (f.name !in seen ==> ExportText(done + [f]) == out + Kept(false, Unlines(FamilyLines(f))))
            && (f.name in seen && seen[f.name] == f.typ ==>
                  && ExportText(done + [f]) == out + Kept(true, Unlines(FamilyLines(f.(help := None))))
                  && !StillSkipping(true, Unlines(FamilyLines(f.(help := None)))))
            && (f.name in seen && seen[f.name] != f.typ ==> ExportText(done + [f]) == out)
            && !StillSkipping(false, Unlines(FamilyLines(f)))
  {
    ExportSnoc(done, f);
    BareWellFormed(f);
    KeptBare(f.(help := None));
    assert Unlines([]) == "" && ExportText(done) + "" == ExportText(done);
    hide WellFormed, Unlines, FamilyLines, SampleLines, ExportText, Seen, IndexOf;
  }

  lemma BareWellFormed(f: Family)
    requires WellFormed(f)
    ensures WellFormed(f.(help := None))
  {
  }

  lemma ExportSnoc(fs: seq<Family>, f: Family)
    ensures Seen(fs + [f]) == NoteSeen(Seen(fs), f)
    ensures ExportText(fs + [f]) == ExportText(fs) + Unlines(EmitLines(Seen(fs), f))
  {
    assert (fs + [f])[..|fs + [f]| - 1] == fs;
    UnlinesConcat(Emitted(fs), EmitLines(Seen(fs), f));
  }

  // ----- Visiting the mounts -----

  /** The families handed to the encoder when the first `m` visited mounts, starting at
      `start`, have been scraped; a mount whose scrape failed contributes none. */
  function Visited(mounts: seq<Option<seq<Family>>>, start: nat, m: nat): seq<Family>
    requires mounts != []
  {
    if m == 0 then []
    else
      var mount := mounts[MountAt(|mounts|, start, m - 1)];
      Visited(mounts, start, m - 1) + if mount.Some? then mount.value else []
  }

  function MountAt(n: nat, start: nat, turn: nat): (mount: nat)
    requires n > 0
    ensures mount < n
  {
    (start + turn) % n
  }

  function TurnOf(n: nat, start: nat, mount: nat): nat
    requires mount < n
  {
    if mount >= start % n then mount - start % n else mount + n - start % n
  }

  /** A full round visits each mount exactly once: turns and mounts are in bijection. */
  lemma VisitsEachOnce(n: nat, start: nat, turn: nat, mount: nat)
    requires turn < n && mount < n
    ensures MountAt(n, start, 0) == start % n
    ensures TurnOf(n, start, MountAt(n, start, turn)) == turn
    ensures TurnOf(n, start, mount) < n && MountAt(n, start, TurnOf(n, start, mount)) == mount
  {
    ModAdd(n, start, turn);
    ModAdd(n, start, TurnOf(n, start, mount));
  }

  lemma ModAdd(n: nat, a: nat, k: nat)
    requires k < n
    ensures (a + k) % n == if a % n + k < n then a % n + k else a % n + k - n
  {
    var r, q := a % n, a / n;
    assert a + k == q * n + (r + k);
    if r + k < n {
      ModUnique(n, q, r + k);
    } else {
      assert a + k == (q + 1) * n + (r + k - n);
      ModUnique(n, q + 1, r + k - n);
    }
  }

  lemma ModUnique(n: nat, q: nat, r: nat)
    requires r < n
    ensures (q * n + r) % n == r
  {
    var x := q * n + r;
    var d := x / n - q;
    assert d * n == r - x % n;
    Multiple(d, n);
  }

  lemma Multiple(d: int, n: nat)
    ensures d >= 1 ==> d * n >= n
    ensures d <= -1 ==> d * n <= -(n as int)
  {
  }

  /** Encodes the families of one mount, in order, until the sink fails. */
  method EncodeMount(fe: FamilyEncoder, families: seq<Family>) returns (ok: bool)
    requires fe.Valid() && AllWellFormed(families)
    modifies fe, fe.sw
    ensures fe.sw.out == Clip(fe.sw.limit, ExportText(old(fe.done) + families))
    ensures ok <==> Fits(fe.sw.limit, ExportText(old(fe.done) + families))
    ensures ok ==> fe.Valid() && fe.done == old(fe.done) + families
  {
    hide *;
    var rest := families;
    ghost var all := fe.done + families;
    ok := true;
    ValidClip(fe);
    while rest != [] && ok
      invariant fe.done + rest == all && AllWellFormed(rest)
      invariant fe.sw.out == Clip(fe.sw.limit, ExportText(fe.done))
      invariant ok <==> Fits(fe.sw.limit, ExportText(fe.done))
      invariant ok ==> fe.Valid()
      decreases |rest|
    {
      FirstWellFormed(rest);
      ghost var before := fe.done;
      ok := fe.Encode(rest[0]);
      assert before + rest == fe.done + rest[1..];
      rest := rest[1..];
    }
    if ok {
      assert fe.done + rest == fe.done;
    } else {
      ClipPrefix(fe.sw.limit, fe.done, rest);
    }
  }

  lemma ValidClip(fe: FamilyEncoder)
    requires fe.Valid()
    ensures Fits(fe.sw.limit, ExportText(fe.done)) && fe.sw.out == Clip(fe.sw.limit, ExportText(fe.done))
  {
  }

  lemma FirstWellFormed(fs: seq<Family>)
    requires fs != [] && AllWellFormed(fs)
    ensures WellFormed(fs[0]) && AllWellFormed(fs[1..])
  {
  }

  /** A sink that failed on the first families holds all it will ever hold. */
  lemma ClipPrefix(limit: Option<nat>, a: seq<Family>, b: seq<Family>)
    ensures !Fits(limit, ExportText(a)) ==>
              !Fits(limit, ExportText(a + b)) && Clip(limit, ExportText(a + b)) == Clip(limit, ExportText(a))
  {
    ExportPrefix(a, b);
    var more := ExportText(a + b)[|ExportText(a)|..];
    assert ExportText(a) + more == ExportText(a + b);
    ClipMore(limit, ExportText(a), more);
    hide *;
  }

  lemma {:induction false} ExportPrefix(a: seq<Family>, b: seq<Family>)
    ensures ExportText(a) <= ExportText(a + b)
    decreases |b|
  {
    hide *;
    if b == [] {
      assert a + b == a;
    } else {
      var k := |b| - 1;
      ExportPrefix(a, b[..k]);
      assert a + b == (a + b[..k]) + [b[k]];
      ExportSnoc(a + b[..k], b[k]);
    }
  }

  /** How many of `n` mounts are visited when the time budget is found used up after `budget` of
      them; it is first looked at after a mount. */
  function Turns(n: nat, budget: nat): nat {
    if budget == 0 then (if n == 0 then 0 else 1) else if budget < n then budget else n
  }

  /** Scrapes and encodes the mounts in turn, stopping early on a sink error or when the
      budget is used up. What was written is the export of the mounts within the budget, as far
      as the sink took it. */
  method EncodeCollectorsSequentially(mounts: seq<Option<seq<Family>>>, start: nat, budget: nat, limit: Option<nat>)
    returns (out: string, ok: bool)
    requires mounts != []
    requires forall i :: 0 <= i < |mounts| && mounts[i].Some? ==> AllWellFormed(mounts[i].value)
    ensures var fs := Visited(mounts, start, Turns(|mounts|, budget));
            AllWellFormed(fs) && out == Clip(limit, ExportText(fs)) && (ok <==> Fits(limit, ExportText(fs)))
  {
    var turns := Turns(|mounts|, budget);
    assert turns > 0 && turns <= |mounts|;
    var fe := new FamilyEncoder(limit);
    ValidClip(fe);
    VisitedNone(mounts, start);
    hide *;
    ok := true;
    var visited := 0;
    var spent := false;
    while visited < |mounts| && ok && !spent
      invariant visited <= turns && (spent || visited == |mounts| ==> visited == turns)
      invariant spent <==> visited > 0 && visited >= budget
      invariant fe.sw.limit == limit && fe.sw.out == Clip(limit, ExportText(Visited(mounts, start, visited)))
      invariant ok <==> Fits(limit, ExportText(Visited(mounts, start, visited)))
      invariant AllWellFormed(Visited(mounts, start, visited))
      invariant ok ==> fe.Valid() && fe.done == Visited(mounts, start, visited)
      invariant fresh(fe) && fresh(fe.sw)
    {
      var at := MountAt(|mounts|, start, visited);
      var c := mounts[at];
      VisitedNext(mounts, start, visited);
      visited := visited + 1;
      if c.Some? {
        ok := EncodeMount(fe, c.value);
      }
      spent := visited >= budget;
      TurnsEnd(|mounts|, budget, visited);
    }
    out := fe.sw.out;
    StoppedEarly(mounts, start, visited, turns, limit);
  }

  lemma TurnsEnd(n: nat, budget: nat, visited: nat)
    requires 0 < visited <= n
    ensures visited < budget ==> visited < Turns(n, budget) || visited == n == Turns(n, budget)
    ensures visited >= budget && (visited == 1 || visited - 1 < budget) ==> visited == Turns(n, budget)
    ensures visited == n ==> visited >= Turns(n, budget)
  {
  }

  /** A sink that failed during an earlier mount holds all it will ever hold. */
  lemma {:induction false} StoppedEarly(mounts: seq<Option<seq<Family>>>, start: nat, m: nat, k: nat, limit: Option<nat>)
    requires mounts != [] && m <= k && AllWellFormed(Visited(mounts, start, m))
    requires forall i :: 0 <= i < |mounts| && mounts[i].Some? ==> AllWellFormed(mounts[i].value)
    ensures AllWellFormed(Visited(mounts, start, k))
    ensures !Fits(limit, ExportText(Visited(mounts, start, m))) ==>
              && !Fits(limit, ExportText(Visited(mounts, start, k)))
              && Clip(limit, ExportText(Visited(mounts, start, k))) == Clip(limit, ExportText(Visited(mounts, start, m)))
    decreases k - m
  {
    hide *;
    if m < k {
      StoppedEarly(mounts, start, m, k - 1, limit);
      VisitedNext(mounts, start, k - 1);
      var c := mounts[MountAt(|mounts|, start, k - 1)];
      if c.Some? {
        ClipPrefix(limit, Visited(mounts, start, k - 1), c.value);
      }
    }
  }

  lemma VisitedNone(mounts: seq<Option<seq<Family>>>, start: nat)
    requires mounts != []
    ensures Visited(mounts, start, 0) == [] && AllWellFormed([])
  {
  }

  lemma VisitedNext(mounts: seq<Option<seq<Family>>>, start: nat, m: nat)
    requires mounts != [] && AllWellFormed(Visited(mounts, start, m))
    requires forall i :: 0 <= i < |mounts| && mounts[i].Some? ==> AllWellFormed(mounts[i].value)
    ensures var c := mounts[MountAt(|mounts|, start, m)];
            && Visited(mounts, start, m + 1) == (if c.Some? then Visited(mounts, start, m) + c.value else Visited(mounts, start, m))
            && AllWellFormed(Visited(mounts, start, m + 1))
  {
    var c := mounts[MountAt(|mounts|, start, m)];
    assert c.None? ==> Visited(mounts, start, m) + [] == Visited(mounts, start, m);
  }

  /** The response is the export of the mounts within the budget, as far as the sink takes it. In
      full it reads back as their families if and only if no written name is a series name of
      another written family. */
  method SequentialMetrics(mounts: seq<Option<seq<Family>>>, start: nat, budget: nat, limit: Option<nat>)
    returns (out: string, ok: bool)
    requires forall i :: 0 <= i < |mounts| && mounts[i].Some? ==> AllWellFormed(mounts[i].value)
    ensures mounts == [] ==> out == "" && ok
    ensures mounts != [] ==>
              var fs := Visited(mounts, start, Turns(|mounts|, budget));
              && out == Clip(limit, ExportText(fs)) && (ok <==> Fits(limit, ExportText(fs)))
              && (ok ==> (ReadText(out) == Some(Expected(fs)) <==> CollisionFree(Seen(fs))))
  {
    if mounts == [] {
      return "", true;
    }
    out, ok := EncodeCollectorsSequentially(mounts, start, budget, limit);
    ExportReadsBackIff(Visited(mounts, start, Turns(|mounts|, budget)));
    hide ReadText, ExportText, Expected, Seen, Visited, Turns;
  }
}

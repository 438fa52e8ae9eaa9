/** The writer that drops bytes up to the first newline while told to, over a sink that may
    fail (pkg/metrics/metrics.go:327-352). */
module LineWriter {
  import opened GoStrings

  /** The bytes that pass the writer. */
  function Kept(skip: bool, data: string): string {
    if !skip then data
    else if '\n' !in data then ""
    else data[IndexOf(data, '\n') + 1..]
  }

  /** Whether the writer is still dropping after `data`. */
  predicate StillSkipping(skip: bool, data: string) {
    skip && '\n' !in data
  }

  lemma DropLine(line: string, rest: string)
    requires OneLine(line)
    ensures Kept(true, line + ['\n'] + rest) == rest && '\n' in line + ['\n'] + rest
  {
    var data := line + ['\n'] + rest;
    assert data[|line|] == '\n' && data[..|line|] == line;
    IndexOfFirst(data, '\n', |line|);
    assert data[|line| + 1..] == rest;
  }

  lemma CutAtNewline(s: string) returns (line: string, rest: string)
    requires '\n' in s
    ensures OneLine(line) && s == line + ['\n'] + rest
  {
    var i := IndexOf(s, '\n');
    line, rest := s[..i], s[i + 1..];
  }

  /** Dropping the first line does not depend on where the bytes are cut. */
  lemma KeptConcat(skip: bool, a: string, b: string)
    ensures Kept(skip, a + b) == Kept(skip, a) + Kept(StillSkipping(skip, a), b)
    ensures StillSkipping(skip, a + b) == StillSkipping(StillSkipping(skip, a), b)
  {
    assert '\n' in a + b <==> '\n' in a || '\n' in b;
    if skip && '\n' in a {
      var line, rest := CutAtNewline(a);
      assert a + b == line + ['\n'] + (rest + b);
      DropLine(line, rest);
      DropLine(line, rest + b);
    } else if skip && '\n' in b {
      var line, rest := CutAtNewline(b);
      assert a + b == (a + line) + ['\n'] + rest;
      DropLine(line, rest);
      DropLine(a + line, rest);
    }
  }

  // ----- A sink that fails at some point -----

  /** What a sink that takes `limit` bytes before it fails holds once it was sent `data`. */
  function Clip(limit: Option<nat>, data: string): string {
    if Fits(limit, data) then data else data[..limit.value]
  }

  predicate Fits(limit: Option<nat>, data: string) {
    limit.None? || |data| <= limit.value
  }

  /** More data only adds to what the sink holds, and nothing once it has failed. */
  lemma ClipMore(limit: Option<nat>, a: string, b: string)
    ensures Fits(limit, a) ==> Clip(limit, a) == a
    ensures !Fits(limit, a) ==> !Fits(limit, a + b) && Clip(limit, a + b) == Clip(limit, a)
    ensures Clip(limit, a) <= Clip(limit, a + b)
  {
    if !Fits(limit, a) {
      assert (a + b)[..limit.value] == a[..limit.value];
    }
  }

  /** The line-dropping writer over its sink. */
  class SkipFirstLineWriter {
    const limit: Option<nat>
    var out: string
    var skipNextLine: bool

    constructor (limit: Option<nat>)
      ensures this.limit == limit && out == "" && !skipNextLine
    {
      this.limit, out, skipNextLine := limit, "", false;
    }

    /** Takes `p`, or the part of it up to the limit. */
    method SinkWrite(p: string) returns (n: nat, ok: bool)
      requires Fits(limit, out)
      modifies this`out
      ensures out == Clip(limit, old(out) + p)
      ensures n == |out| - |old(out)| && (ok <==> n == |p|)
    {
      n := if limit.Some? && |out| + |p| > limit.value then limit.value - |out| else |p|;
      assert Clip(limit, out + p) == out + p[..n];
      out := out + p[..n];
      ok := n == |p|;
    }

    /** Reports all of `p` consumed unless the sink failed on what had to pass. */
    method Write(p: string) returns (n: nat, ok: bool)
      requires Fits(limit, out)
      modifies this
      ensures skipNextLine == StillSkipping(old(skipNextLine), p)
      ensures var text := old(out) + Kept(old(skipNextLine), p);
              out == Clip(limit, text) && n == |p| - (|text| - |out|) && (ok <==> Fits(limit, text))
    {
      if !skipNextLine {
        n, ok := SinkWrite(p);
        return;
      }
      var idx := IndexOf(p, '\n');
      assert out + "" == out;
      if idx == -1 {
        return |p|, true;
      }
      skipNextLine := false;
      var rest := p[idx + 1..];
      if |rest| == 0 {
        return |p|, true;
      }
      n, ok := SinkWrite(rest);
      n := idx + 1 + n;
    }

    /** The library encoder: writes `data` in chunks of its choosing, until one fails. */
    method WriteInChunks(data: string) returns (ok: bool)
      requires Fits(limit, out)
      modifies this
      ensures var text := old(out) + Kept(old(skipNextLine), data);
              out == Clip(limit, text) && (ok <==> Fits(limit, text))
      ensures ok ==> skipNextLine == StillSkipping(old(skipNextLine), data)
    {
      hide *;
      var rest := data;
      ghost var goal, after := out + Kept(skipNextLine, data), StillSkipping(skipNextLine, data);
      ok := true;
      while rest != "" && ok
        invariant ok ==> Fits(limit, out) && out + Kept(skipNextLine, rest) == goal && StillSkipping(skipNextLine, rest) == after
        invariant !ok ==> !Fits(limit, goal) && out == Clip(limit, goal)
        decreases |rest|
      {
        var j :| 0 < j <= |rest|;
        var chunk, next := rest[..j], rest[j..];
        Advance(limit, out, skipNextLine, chunk, next, rest);
        var n;
        n, ok := Write(chunk);
        rest := next;
      }
      if ok {
        KeptNothing(skipNextLine);
        assert out + "" == out;
        ClipMore(limit, out, "");
      }
    }
  }

  lemma KeptNothing(skip: bool)
    ensures Kept(skip, "") == "" && StillSkipping(skip, "") == skip
  {
  }

  /** Once `chunk` is written, the rest is still to pass, or the sink has failed for good. */
  lemma Advance(limit: Option<nat>, sent: string, skip: bool, chunk: string, next: string, rest: string)
    requires rest == chunk + next
    ensures var text, goal := sent + Kept(skip, chunk), sent + Kept(skip, rest);
            && text + Kept(StillSkipping(skip, chunk), next) == goal
            && (Fits(limit, text) ==> Clip(limit, text) == text)
            && (!Fits(limit, text) ==> !Fits(limit, goal) && Clip(limit, goal) == Clip(limit, text))
    ensures StillSkipping(StillSkipping(skip, chunk), next) == StillSkipping(skip, rest)
  {
    KeptConcat(skip, chunk, next);
    var passed, kept := Kept(skip, chunk), Kept(StillSkipping(skip, chunk), next);
    assert sent + (passed + kept) == (sent + passed) + kept;
    ClipMore(limit, sent + passed, kept);
    hide *;
  }
}

/** In every run, a sidecar-mode FUSE mount that needs it comes after a successful bucket
    access check for its path. */
module NodeAccess {
  import opened GoStrings
  import opened NodeLifecycle
  import opened NodeInvariants

  /** The path's bucket check succeeded after its last unpublish, and since the driver started. */
  predicate CheckedSince(log: seq<Event>, p: Path) {
    if log == [] then false
    else
      match log[|log| - 1]
      case Checked(q) => p == q || CheckedSince(log[..|log| - 1], p)
      case Unpublished(q) => p != q && CheckedSince(log[..|log| - 1], p)
      case Restarted => false
      case _ => CheckedSince(log[..|log| - 1], p)
  }

  /** What `CheckedSince` says about positions in the log. */
  lemma {:induction false} CheckedSinceMeaning(log: seq<Event>, p: Path)
    ensures CheckedSince(log, p) <==>
            exists i :: 0 <= i < |log| && log[i] == Checked(p) && NoReset(log, p, i)
    decreases |log|
  {
    if log != [] {
      var k := |log| - 1;
      CheckedSinceMeaning(log[..k], p);
      if CheckedSince(log, p) {
        if log[k] == Checked(p) {
          assert NoReset(log, p, k);
        } else {
          var i :| 0 <= i < k && log[..k][i] == Checked(p) && NoReset(log[..k], p, i);
          assert log[i] == Checked(p) && NoReset(log, p, i);
        }
      }
      if i :| 0 <= i < |log| && log[i] == Checked(p) && NoReset(log, p, i) {
        if i < k {
          assert log[..k][i] == Checked(p) && NoReset(log[..k], p, i);
        }
      }
    }
  }

  predicate NoReset(log: seq<Event>, p: Path, i: int) {
    0 <= i < |log| && forall j :: i < j < |log| ==> log[j] != Unpublished(p) && log[j] != Restarted
  }

  predicate NeedsCheck(e: Event) {
    e.FuseMount? && e.bucket != "_" && !e.skipCheck
  }

  ghost predicate LogOk(log: seq<Event>) {
    forall i :: 0 <= i < |log| && NeedsCheck(log[i]) ==> CheckedSince(log[..i], log[i].path)
  }

  predicate Guarded(th: Thread) {
    th.call.Publish? && th.call.bucket != "_" && !th.call.skipCheck
  }

  /** The volume state is marked as checked. */
  predicate Flagged(g: Shared, v: nat) {
    v in g.objects && g.objects[v].checked
  }

  /** Past its check a guarded publish has a check on record; before it, a mark on its volume
      state stands for one. */
  predicate PublishOk(g: Shared, th: Thread) {
    && (Guarded(th) && (th.pc.Middle? || th.pc.MountIt?) ==> CheckedSince(g.log, th.call.target))
    && (th.call.Publish? && th.vs.Some? && (th.pc.StoreMap? || th.pc.StoreCount? || th.pc.Check?) && Flagged(g, th.vs.value) ==>
          CheckedSince(g.log, th.call.target))
  }

  /** An unpublish past its delete leaves no marked volume state behind. */
  predicate UnpublishOk(g: Shared, th: Thread) {
    th.call.Unpublish? && (th.pc.DeleteCount? || th.pc.Cleanup? || th.pc.Release?) ==>
      th.call.target in g.store ==> !Flagged(g, g.store[th.call.target])
  }

  predicate AccessThreadOk(g: Shared, th: Thread) {
    PublishOk(g, th) && UnpublishOk(g, th)
  }

  ghost predicate FlagsOk(g: Shared) {
    forall k :: k in g.store && Flagged(g, g.store[k]) ==> CheckedSince(g.log, k)
  }

  ghost predicate AccessInv(s: State) {
    && LogOk(s.g.log) && FlagsOk(s.g)
    && forall t :: t in s.threads ==> AccessThreadOk(s.g, s.threads[t])
  }

  lemma CheckedSnoc(log: seq<Event>, e: Event, p: Path)
    ensures CheckedSince(log + [e], p) ==
            match e
            case Checked(q) => p == q || CheckedSince(log, p)
            case Unpublished(q) => p != q && CheckedSince(log, p)
            case Restarted => false
            case _ => CheckedSince(log, p)
  {
    assert (log + [e])[..|log + [e]| - 1] == log;
  }

  lemma LogSnoc(log: seq<Event>, e: Event)
    requires LogOk(log) && (NeedsCheck(e) ==> CheckedSince(log, e.path))
    ensures LogOk(log + [e])
  {
    forall i | 0 <= i < |log + [e]| && NeedsCheck((log + [e])[i])
      ensures CheckedSince((log + [e])[..i], (log + [e])[i].path)
    {
      assert (log + [e])[..i] == if i < |log| then log[..i] else log;
    }
  }

  /** What a step writes to the log. */
  predicate OnlyLog(th: Thread, g: Shared, l: Local) {
    || l.g.log == g.log
    || (th.pc.Check? && th.call.Publish? && l.g.log == g.log + [Checked(th.call.target)])
    || (th.pc.MountIt? && th.call.Publish? && l.g.log == g.log + [FuseMount(th.call.target, th.call.bucket, th.call.skipCheck)])
    || (th.pc.Release? && th.call.Unpublish? && l.g.log == g.log + [Unpublished(th.call.target)])
  }

  lemma StepOnlyLog(t: nat, th: Thread, g: Shared, l: Local)
    requires LocalStep(t, th, g, l)
    ensures OnlyLog(th, g, l)
  {
    hide Wrap32;
  }

  /** A mark after the step was there before, or is set by a check that is logged. */
  lemma NewFlag(t: nat, th: Thread, g: Shared, l: Local, v: nat)
    requires OnlyObject(t, th, g, l) && Flagged(l.g, v)
    ensures Flagged(g, v) || (th.pc.Check? && th.call.Publish? && th.vs == Some(v) && l.g.log == g.log + [Checked(th.call.target)])
  {
  }

  /** Checks on record stay on record while a call other than an unpublish of the path steps. */
  lemma StillChecked(th: Thread, g: Shared, l: Local, p: Path)
    requires OnlyLog(th, g, l) && CheckedSince(g.log, p)
    requires !(th.call.Unpublish? && th.pc.Release? && th.call.target == p)
    ensures CheckedSince(l.g.log, p)
  {
    if l.g.log != g.log {
      CheckedSnoc(g.log, l.g.log[|l.g.log| - 1], p);
    }
    hide CheckedSince;
  }

  lemma StepLog(t: nat, th: Thread, g: Shared, l: Local)
    requires LocalStep(t, th, g, l) && AccessThreadOk(g, th) && LogOk(g.log)
    ensures LogOk(l.g.log)
  {
    StepOnlyLog(t, th, g, l);
    hide LocalStep, CheckedSince, LogOk;
    if l.g.log != g.log {
      LogSnoc(g.log, l.g.log[|l.g.log| - 1]);
    }
  }

  lemma StepFlags(t: nat, th: Thread, g: Shared, l: Local)
    requires LocalStep(t, th, g, l) && StoreOk(g) && ThreadCore(g, th) && AccessThreadOk(g, th) && FlagsOk(g)
    ensures FlagsOk(l.g)
  {
    StepOnlyLog(t, th, g, l);
    StepObject(t, th, g, l);
    StepKey(t, th, g, l);
    hide LocalStep, CheckedSince, OnlyLog, OnlyObject, FlagsOk;
    forall k | k in l.g.store && Flagged(l.g, l.g.store[k])
      ensures CheckedSince(l.g.log, k)
    {
      FlagKept(t, th, g, l, k);
    }
    FlagsAre(l.g);
  }

  lemma FlagsAre(g: Shared)
    requires forall k :: k in g.store && Flagged(g, g.store[k]) ==> CheckedSince(g.log, k)
    ensures FlagsOk(g)
  {
  }

  /** A marked stored volume state has a check on record after the step. */
  lemma FlagKept(t: nat, th: Thread, g: Shared, l: Local, k: Path)
    requires OnlyLog(th, g, l) && OnlyObject(t, th, g, l) && OnlyKey(th, g, l)
    requires StoreOk(g) && ThreadCore(g, th) && AccessThreadOk(g, th) && FlagsOk(g)
    requires k in l.g.store && Flagged(l.g, l.g.store[k])
    ensures CheckedSince(l.g.log, k)
  {
    var v := l.g.store[k];
    NewFlag(t, th, g, l, v);
    CheckedSnoc(g.log, Checked(k), k);
    hide CheckedSince, OnlyObject, PcOk;
    if Flagged(g, v) {
      assert CheckedSince(g.log, k);
      StillChecked(th, g, l, k);
    }
  }

  lemma StepOwnPublish(t: nat, th: Thread, g: Shared, l: Local)
    requires LocalStep(t, th, g, l) && StoreOk(g) && ThreadCore(g, th) && PublishOk(g, th) && FlagsOk(g) && l.th.Some?
    ensures PublishOk(l.g, l.th.value)
  {
    if th.call.Publish? {
      CheckedSnoc(g.log, Checked(th.call.target), th.call.target);
    }
    hide CheckedSince, Wrap32;
  }

  lemma StepOwnUnpublish(t: nat, th: Thread, g: Shared, l: Local)
    requires LocalStep(t, th, g, l) && ThreadCore(g, th) && UnpublishOk(g, th) && l.th.Some?
    ensures UnpublishOk(l.g, l.th.value)
  {
    hide Wrap32;
  }

  lemma StepOwnAccess(t: nat, th: Thread, g: Shared, l: Local)
    requires LocalStep(t, th, g, l) && StoreOk(g) && ThreadCore(g, th) && AccessThreadOk(g, th) && FlagsOk(g) && l.th.Some?
    ensures AccessThreadOk(l.g, l.th.value)
  {
    StepOwnPublish(t, th, g, l);
    StepOwnUnpublish(t, th, g, l);
    hide LocalStep, PublishOk, UnpublishOk;
  }

  lemma StepOtherAccess(t: nat, th: Thread, g: Shared, l: Local, other: Thread)
    requires LocalStep(t, th, g, l) && StoreOk(g) && ThreadCore(g, th) && ThreadCore(g, other) && Apart(th, other)
    requires AccessThreadOk(g, th) && AccessThreadOk(g, other)
    ensures AccessThreadOk(l.g, other)
  {
    StepOnlyLog(t, th, g, l);
    StepObject(t, th, g, l);
    StepKey(t, th, g, l);
    OtherPublish(t, th, g, l, other);
    OtherUnpublish(t, th, g, l, other);
    hide LocalStep, PublishOk, UnpublishOk;
  }

  lemma OtherPublish(t: nat, th: Thread, g: Shared, l: Local, other: Thread)
    requires OnlyLog(th, g, l) && OnlyObject(t, th, g, l)
    requires ThreadCore(g, th) && ThreadCore(g, other) && Apart(th, other) && AccessThreadOk(g, other)
    ensures PublishOk(l.g, other)
  {
    if other.vs.Some? && Flagged(l.g, other.vs.value) { NewFlag(t, th, g, l, other.vs.value); }
    hide OnlyObject, PcOk, HasVs;
    if other.call.Publish? && !other.pc.Acquire? && CheckedSince(g.log, other.call.target) {
      hide CheckedSince;
      StillChecked(th, g, l, other.call.target);
    }
    hide CheckedSince;
  }

  lemma OtherUnpublish(t: nat, th: Thread, g: Shared, l: Local, other: Thread)
    requires OnlyObject(t, th, g, l) && OnlyKey(th, g, l) && StoreOk(g)
    requires ThreadCore(g, th) && ThreadCore(g, other) && Apart(th, other) && AccessThreadOk(g, other)
    ensures UnpublishOk(l.g, other)
  {
    hide CheckedSince;
    if other.call.Unpublish? && !other.pc.Acquire? && other.call.target in l.g.store {
      var v := l.g.store[other.call.target];
      if Flagged(l.g, v) { NewFlag(t, th, g, l, v); }
    }
  }

  lemma AccessStep(s: State, s': State, t: nat, l: Local)
    requires Core(s) && AccessInv(s) && ThreadStep(s, s', t, l)
    ensures AccessInv(s')
  {
    hide LocalStep, ThreadCore, StoreOk, AccessThreadOk, FlagsOk, LogOk, Apart;
    var th := s.threads[t];
    StepLog(t, th, s.g, l);
    StepFlags(t, th, s.g, l);
    if l.th.Some? { StepOwnAccess(t, th, s.g, l); }
    forall u | u in s'.threads && u != t
      ensures AccessThreadOk(s'.g, s'.threads[u])
    {
      StepOtherAccess(t, th, s.g, l, s.threads[u]);
    }
  }

  lemma AccessBegin(env: Env, s: State, s': State, t: nat, c: Call)
    requires AccessInv(s) && Begin(env, s, s', t, c)
    ensures AccessInv(s')
  {
    hide CheckedSince, LogOk;
  }

  lemma AccessRestart(s: State, s': State)
    requires AccessInv(s) && Restart(s, s')
    ensures AccessInv(s')
  {
    LogSnoc(s.g.log, Restarted);
  }

  lemma AccessNext(env: Env, s: State, s': State)
    requires Core(s) && AccessInv(s) && Next(env, s, s')
    ensures AccessInv(s')
  {
    hide Core, AccessInv, Begin, ThreadStep;
    if t, c :| Begin(env, s, s', t, c) {
      AccessBegin(env, s, s', t, c);
    } else if t, l :| ThreadStep(s, s', t, l) {
      AccessStep(s, s', t, l);
    } else {
      AccessRestart(s, s');
    }
  }

  lemma {:induction false} AccessRun(env: Env, run: seq<State>, i: nat)
    requires Run(env, run) && i < |run|
    ensures AccessInv(run[i])
  {
    if i > 0 {
      hide AccessInv, Next, Core;
      AccessRun(env, run, i - 1);
      CoreRun(env, run, i - 1);
      assert Next(env, run[i - 1], run[i - 1 + 1]);
      AccessNext(env, run[i - 1], run[i]);
    }
  }

  /** Each FUSE mount of a named bucket without the skip attribute is preceded by a successful
      check for the same path, with no unpublish of the path and no restart in between. */
  lemma CheckedBeforeMount(env: Env, run: seq<State>, i: nat, j: nat)
    requires Run(env, run) && i < |run|
    requires j < |run[i].g.log| && NeedsCheck(run[i].g.log[j])
    ensures var log := run[i].g.log;
            exists c :: 0 <= c < j && log[c] == Checked(log[j].path) && NoReset(log[..j], log[j].path, c)
  {
    AccessRun(env, run, i);
    var log := run[i].g.log;
    CheckedSinceMeaning(log[..j], log[j].path);
    var c :| 0 <= c < j && log[..j][c] == Checked(log[j].path) && NoReset(log[..j], log[j].path, c);
    assert log[c] == log[..j][c];
  }
}

/** At most one live kernel-params monitor per volume key, in every run of the node server;
    for staging keys, in every run in which no shared publish overlaps the unstage of its
    staging path. */
module NodeMonitors {
  import opened GoStrings
  import opened NodeLifecycle
  import opened NodeInvariants

  /** The keys spoken for: target paths always, staging paths when the calls are ordered. */
  predicate Covered(env: Env, k: Path) {
    env.ordered || k !in env.stagings
  }

  predicate InsideOnce(th: Thread) {
    th.pc.SetCancel? || th.pc.Spawn? || th.pc.LeaveOnce?
  }

  /** A publishing call that holds a volume state which it expects to be stored. */
  predicate Publishing(th: Thread) {
    && (th.call.Publish? || th.call.PublishShared?) && th.vs.Some?
    && !th.pc.Acquire? && !th.pc.StoreMap? && !th.pc.Release?
  }

  predicate Deleted(th: Thread) {
    (th.call.Unpublish? || th.call.Unstage?) && (th.pc.DeleteCount? || th.pc.Cleanup? || th.pc.Release?)
  }

  predicate Stored(g: Shared, v: nat) {
    v in g.objects && g.objects[v].key in g.store && g.store[g.objects[v].key] == v
  }

  /** Nothing will start, and nothing runs uncancelled, for this volume state. */
  predicate Quiet(g: Shared, v: nat)
    requires v in g.objects
  {
    && !g.objects[v].once.Busy?
    && (g.objects[v].cancel.Some? ==> g.objects[v].cancel.value in g.cancelled)
  }

  predicate MonitorThreadOk(env: Env, g: Shared, t: nat, th: Thread) {
    && (InsideOnce(th) ==>
          && th.vs.Some? && th.vs.value in g.objects && g.objects[th.vs.value].once == Busy(t)
          && (g.objects[th.vs.value].cancel.Some? <==> !th.pc.SetCancel?))
    && (Covered(env, KeyOf(th.call)) ==> InPlace(g, th))
  }

  /** A publishing call's volume state is stored, and one that is taken away is at rest. */
  predicate InPlace(g: Shared, th: Thread) {
    && (Publishing(th) ==> Stored(g, th.vs.value))
    && (th.pc.DeleteMap? ==> th.vs.Some? && th.vs.value in g.objects && Quiet(g, th.vs.value))
    && (Deleted(th) ==> KeyOf(th.call) !in g.store)
  }

  predicate ObjectOk(env: Env, g: Shared, v: nat)
    requires v in g.objects
  {
    var o := g.objects[v];
    && (o.once.Fresh? ==> o.cancel.None?)
    && (o.once.Done? ==> o.cancel.Some?)
    && (Covered(env, o.key) && !Stored(g, v) ==> Quiet(g, v))
  }

  ghost predicate ObjectsOk(env: Env, g: Shared) {
    && (forall v :: v in g.objects ==> ObjectOk(env, g, v))
    && (forall m :: m in g.monitors ==> g.monitors[m] in g.objects && g.objects[g.monitors[m]].cancel == Some(m))
  }

  /** A claimed Once is claimed by a call that is inside it. */
  ghost predicate BusyOk(s: State) {
    forall v :: v in s.g.objects && s.g.objects[v].once.Busy? ==>
      var t := s.g.objects[v].once.owner;
      t in s.threads && InsideOnce(s.threads[t]) && s.threads[t].vs == Some(v)
  }

  ghost predicate Ordered(env: Env, s: State) {
    env.ordered ==> forall t, u :: t in s.threads && u in s.threads ==> !Conflict(s.threads[t].call, s.threads[u].call)
  }

  ghost predicate MonitorInv(env: Env, s: State) {
    && (forall t :: t in s.threads ==> MonitorThreadOk(env, s.g, t, s.threads[t]))
    && ObjectsOk(env, s.g) && BusyOk(s) && Ordered(env, s)
  }

  predicate IsPublish(th: Thread) {
    (th.call.Publish? || th.call.PublishShared?) && !th.pc.Acquire?
  }

  predicate IsUnpublish(th: Thread) {
    (th.call.Unpublish? || th.call.Unstage?) && !th.pc.Acquire?
  }

  /** A call that takes a volume state away and one that publishes with it cannot coexist. */
  lemma NoOverlap(env: Env, g: Shared, a: Thread, b: Thread)
    requires ThreadOk(env, g, a) && ThreadOk(env, g, b) && Apart(a, b) && (env.ordered ==> !Conflict(a.call, b.call))
    requires IsUnpublish(a) && IsPublish(b) && Covered(env, KeyOf(a.call))
    ensures KeyOf(a.call) != KeyOf(b.call)
    ensures a.vs.Some? ==> a.vs != b.vs
  {
  }

  // ----- How the volume states may change -----

  lemma ObjectsAllocate(env: Env, g: Shared, key: Path)
    requires StoreOk(g) && ObjectsOk(env, g)
    ensures ObjectsOk(env, Allocate(g, key))
    ensures key !in g.store ==> ObjectsOk(env, Allocate(g, key).(store := g.store[key := g.next]))
  {
    assert g.next !in g.objects;
  }

  lemma ObjectsStore(env: Env, g: Shared, v: nat)
    requires ObjectsOk(env, g) && v in g.objects && g.objects[v].key !in g.store
    ensures ObjectsOk(env, g.(store := g.store[g.objects[v].key := v]))
  {
  }

  /** Changing a stored volume state, or only its check flag, keeping a set cancel function. */
  lemma ObjectsUpdate(env: Env, g: Shared, v: nat, o: VolumeState, next: nat)
    requires ObjectsOk(env, g) && v in g.objects && o.key == g.objects[v].key
    requires (o.once.Fresh? ==> o.cancel.None?) && (o.once.Done? ==> o.cancel.Some?)
    requires g.objects[v].cancel.Some? ==> o.cancel == g.objects[v].cancel
    requires Stored(g, v) || !Covered(env, o.key) || (o.once == g.objects[v].once && o.cancel == g.objects[v].cancel)
    ensures ObjectsOk(env, g.(objects := g.objects[v := o], next := next))
  {
    var g' := g.(objects := g.objects[v := o], next := next);
    forall w | w in g'.objects
      ensures ObjectOk(env, g', w)
    {
      assert ObjectOk(env, g, w);
      assert Stored(g', w) <==> Stored(g, w);
    }
  }

  lemma ObjectsSpawn(env: Env, g: Shared, v: nat)
    requires ObjectsOk(env, g) && v in g.objects && g.objects[v].cancel.Some?
    ensures ObjectsOk(env, g.(monitors := g.monitors[g.objects[v].cancel.value := v]))
  {
  }

  lemma ObjectsCancel(env: Env, g: Shared, m: nat)
    requires ObjectsOk(env, g)
    ensures ObjectsOk(env, g.(cancelled := g.cancelled + {m}))
  {
  }

  lemma ObjectsDelete(env: Env, g: Shared, k: Path)
    requires ObjectsOk(env, g) && k in g.store && g.store[k] in g.objects && g.objects[g.store[k]].key == k
    requires Covered(env, k) ==> Quiet(g, g.store[k])
    ensures ObjectsOk(env, g.(store := g.store - {k}))
  {
    var g' := g.(store := g.store - {k});
    forall w | w in g'.objects
      ensures ObjectOk(env, g', w)
    {
      assert ObjectOk(env, g, w);
      assert Stored(g, w) && !Stored(g', w) ==> w == g.store[k];
    }
  }

  // ----- One step, by kind -----

  ghost predicate Before(env: Env, t: nat, th: Thread, g: Shared) {
    && StoreOk(g) && ThreadOk(env, g, th) && MonitorThreadOk(env, g, t, th) && ObjectsOk(env, g)
    && (th.pc.Cancel? && Covered(env, KeyOf(th.call)) ==> !g.objects[th.vs.value].once.Busy?)
  }

  ghost predicate After(env: Env, t: nat, l: Local) {
    ObjectsOk(env, l.g) && (l.th.Some? ==> MonitorThreadOk(env, l.g, t, l.th.value))
  }

  lemma AfterLoad(env: Env, t: nat, th: Thread, g: Shared, l: Local)
    requires Before(env, t, th, g) && th.pc.Load? && l == LoadStep(th, g)
    ensures After(env, t, l)
  {
    ObjectsAllocate(env, g, KeyOf(th.call));
    hide ObjectOk, PathsOk;
  }

  lemma AfterStoreMap(env: Env, t: nat, th: Thread, g: Shared, l: Local)
    requires Before(env, t, th, g) && th.pc.StoreMap? && LocalStep(t, th, g, l)
    ensures After(env, t, l)
  {
    ObjectsStore(env, g, th.vs.value);
    hide ObjectsOk;
  }

  lemma AfterCheck(env: Env, t: nat, th: Thread, g: Shared, l: Local)
    requires Before(env, t, th, g) && th.pc.Check? && CheckStep(th, g, l)
    ensures After(env, t, l)
  {
    if l.g != g {
      ObjectsUpdate(env, g, th.vs.value, g.objects[th.vs.value].(checked := true), g.next);
    }
    hide ObjectsOk;
  }

  lemma AfterMonitor(env: Env, t: nat, th: Thread, g: Shared, l: Local)
    requires Before(env, t, th, g) && th.pc.Monitor? && MonitorStep(t, th, g, l)
    ensures After(env, t, l)
  {
    if l.g != g {
      var v := th.vs.value;
      assert ObjectOk(env, g, v);
      ObjectsUpdate(env, g, v, g.objects[v].(once := Busy(t)), g.next);
    }
    hide ObjectsOk;
  }

  lemma AfterSetCancel(env: Env, t: nat, th: Thread, g: Shared, l: Local)
    requires Before(env, t, th, g) && th.pc.SetCancel? && SetCancelStep(th, g, l)
    ensures After(env, t, l)
  {
    var v := th.vs.value;
    ObjectsUpdate(env, g, v, g.objects[v].(cancel := Some(g.next)), g.next + 1);
    hide ObjectsOk;
  }

  lemma AfterSpawn(env: Env, t: nat, th: Thread, g: Shared, l: Local)
    requires Before(env, t, th, g) && th.pc.Spawn? && SpawnStep(th, g, l)
    ensures After(env, t, l)
  {
    ObjectsSpawn(env, g, th.vs.value);
    hide ObjectsOk;
  }

  lemma AfterLeaveOnce(env: Env, t: nat, th: Thread, g: Shared, l: Local)
    requires Before(env, t, th, g) && th.pc.LeaveOnce? && LeaveOnceStep(th, g, l)
    ensures After(env, t, l)
  {
    var v := th.vs.value;
    ObjectsUpdate(env, g, v, g.objects[v].(once := Done), g.next);
    hide ObjectsOk;
  }

  lemma AfterCancel(env: Env, t: nat, th: Thread, g: Shared, l: Local)
    requires Before(env, t, th, g) && th.pc.Cancel? && CancelStep(th, g, l)
    ensures After(env, t, l)
  {
    var cancel := g.objects[th.vs.value].cancel;
    if cancel.Some? { ObjectsCancel(env, g, cancel.value); }
    hide ObjectsOk;
  }

  lemma AfterDelete(env: Env, t: nat, th: Thread, g: Shared, l: Local)
    requires Before(env, t, th, g) && th.pc.DeleteMap? && LocalStep(t, th, g, l)
    ensures After(env, t, l)
  {
    ObjectsDelete(env, g, KeyOf(th.call));
    hide ObjectsOk;
  }

  lemma ObjectsSame(env: Env, g: Shared, g': Shared)
    requires ObjectsOk(env, g)
    requires g'.objects == g.objects && g'.monitors == g.monitors && g'.store == g.store && g'.cancelled == g.cancelled
    ensures ObjectsOk(env, g')
  {
    assert forall v :: v in g.objects ==> ObjectOk(env, g, v);
  }

  predicate Plain(pc: Pc) {
    pc in {Acquire, StoreCount, Middle, MountIt, DeleteCount, Cleanup, Release}
  }

  lemma PlainStep(t: nat, th: Thread, g: Shared, l: Local)
    requires LocalStep(t, th, g, l) && Plain(th.pc) && PcOk(th)
    ensures l.g.objects == g.objects && l.g.monitors == g.monitors && l.g.store == g.store && l.g.cancelled == g.cancelled
    ensures l.th.Some? ==> l.th.value.vs == th.vs && l.th.value.call == th.call && !InsideOnce(l.th.value)
    ensures l.th.Some? ==> !l.th.value.pc.DeleteMap? && !l.th.value.pc.Acquire?
    ensures l.th.Some? && Deleted(l.th.value) ==> Deleted(th)
  {
    hide Wrap32;
  }

  lemma AfterOther(env: Env, t: nat, th: Thread, g: Shared, l: Local)
    requires Before(env, t, th, g) && LocalStep(t, th, g, l) && Plain(th.pc)
    ensures After(env, t, l)
  {
    PlainStep(t, th, g, l);
    ObjectsSame(env, g, l.g);
    hide LocalStep, ObjectsOk, PathsOk, Quiet;
  }

  lemma StepAfter(env: Env, t: nat, th: Thread, g: Shared, l: Local)
    requires Before(env, t, th, g) && LocalStep(t, th, g, l)
    ensures After(env, t, l)
  {
    hide Before, After;
    match th.pc
    case Load => AfterLoad(env, t, th, g, l);
    case StoreMap => AfterStoreMap(env, t, th, g, l);
    case Check => AfterCheck(env, t, th, g, l);
    case Monitor => AfterMonitor(env, t, th, g, l);
    case SetCancel => AfterSetCancel(env, t, th, g, l);
    case Spawn => AfterSpawn(env, t, th, g, l);
    case LeaveOnce => AfterLeaveOnce(env, t, th, g, l);
    case Cancel => AfterCancel(env, t, th, g, l);
    case DeleteMap => AfterDelete(env, t, th, g, l);
    case _ => AfterOther(env, t, th, g, l);
  }

  // ----- One step, seen by another call -----

  /** Only the stepping call's own volume state changes its Once or cancel function, and
      only while it publishes; cancelled monitors stay cancelled. */
  ghost predicate MonitorTouch(t: nat, th: Thread, g: Shared, l: Local) {
    && g.cancelled <= l.g.cancelled
    && (forall v :: v in g.objects ==>
          && v in l.g.objects
          && (|| (l.g.objects[v].once == g.objects[v].once && l.g.objects[v].cancel == g.objects[v].cancel)
              || (th.vs == Some(v) && IsPublish(th) && (g.objects[v].once.Fresh? || g.objects[v].once == Busy(t)))))
  }

  lemma StepCancelled(t: nat, th: Thread, g: Shared, l: Local)
    requires LocalStep(t, th, g, l)
    ensures g.cancelled <= l.g.cancelled
  {
    hide Wrap32;
  }

  lemma StepMonitorTouch(env: Env, t: nat, th: Thread, g: Shared, l: Local)
    requires LocalStep(t, th, g, l) && StoreOk(g) && ThreadOk(env, g, th) && MonitorThreadOk(env, g, t, th)
    ensures MonitorTouch(t, th, g, l)
  {
    StepObject(t, th, g, l);
    StepCancelled(t, th, g, l);
    hide LocalStep, PathsOk, InPlace;
  }

  lemma StepOtherMonitor(env: Env, t: nat, th: Thread, g: Shared, l: Local, u: nat, other: Thread)
    requires LocalStep(t, th, g, l) && StoreOk(g) && ThreadOk(env, g, th) && ThreadOk(env, g, other)
    requires u != t && Apart(th, other)
    requires env.ordered ==> !Conflict(th.call, other.call) && !Conflict(other.call, th.call)
    requires MonitorThreadOk(env, g, t, th) && MonitorThreadOk(env, g, u, other)
    ensures MonitorThreadOk(env, l.g, u, other)
  {
    StepMonitorTouch(env, t, th, g, l);
    StepKey(t, th, g, l);
    StepGrows(t, th, g, l);
    if Covered(env, KeyOf(other.call)) {
      OtherInPlace(env, t, th, g, l, other);
    }
    hide LocalStep, PathsOk, InPlace;
  }

  lemma OtherInPlace(env: Env, t: nat, th: Thread, g: Shared, l: Local, other: Thread)
    requires MonitorTouch(t, th, g, l) && OnlyKey(th, g, l) && ObjectsGrow(g, l.g)
    requires StoreOk(g) && ThreadOk(env, g, th) && ThreadOk(env, g, other) && Apart(th, other)
    requires env.ordered ==> !Conflict(th.call, other.call) && !Conflict(other.call, th.call)
    requires Covered(env, KeyOf(other.call)) && InPlace(g, other)
    ensures InPlace(l.g, other)
  {
    if IsUnpublish(th) && IsPublish(other) && KeyOf(th.call) == KeyOf(other.call) { NoOverlap(env, g, th, other); }
    if IsUnpublish(other) && IsPublish(th) { NoOverlap(env, g, other, th); }
    hide PathsOk;
  }

  /** A claim on Once after the step is an old one, or the stepping call's own. */
  ghost predicate Claims(t: nat, th: Thread, g: Shared, l: Local, v: nat)
    requires v in l.g.objects && l.g.objects[v].once.Busy?
  {
    var w := l.g.objects[v].once.owner;
    if w == t && (v !in g.objects || g.objects[v].once != Busy(t) || (InsideOnce(th) && th.vs == Some(v))) then
      l.th.Some? && InsideOnce(l.th.value) && l.th.value.vs == Some(v)
    else
      v in g.objects && g.objects[v].once == Busy(w)
  }

  lemma StepClaims(env: Env, t: nat, th: Thread, g: Shared, l: Local, v: nat)
    requires LocalStep(t, th, g, l) && StoreOk(g) && ThreadOk(env, g, th) && MonitorThreadOk(env, g, t, th)
    requires v in l.g.objects && l.g.objects[v].once.Busy?
    ensures Claims(t, th, g, l, v)
  {
    StepObject(t, th, g, l);
    StepInside(t, th, g, l);
    hide LocalStep, PathsOk, InPlace;
  }

  /** A call stays inside Once until it is done with it. */
  lemma StepInside(t: nat, th: Thread, g: Shared, l: Local)
    requires LocalStep(t, th, g, l)
    ensures th.pc.Monitor? && l.g.objects != g.objects ==> l.th.Some? && InsideOnce(l.th.value) && l.th.value.vs == th.vs
    ensures th.pc.SetCancel? || th.pc.Spawn? ==> l.th.Some? && InsideOnce(l.th.value) && l.th.value.vs == th.vs
    ensures th.pc.LeaveOnce? ==> th.vs.Some? && th.vs.value in l.g.objects && l.g.objects[th.vs.value].once.Done?
  {
    hide Wrap32;
  }

  // ----- The invariant of every run -----

  lemma NotBusyAtCancel(env: Env, s: State, t: nat)
    requires Base(env, s) && MonitorInv(env, s) && t in s.threads && s.threads[t].pc.Cancel?
    requires Covered(env, KeyOf(s.threads[t].call))
    ensures !s.g.objects[s.threads[t].vs.value].once.Busy?
  {
    var th := s.threads[t];
    assert ThreadOk(env, s.g, th);
    var v := th.vs.value;
    if s.g.objects[v].once.Busy? {
      var u := s.g.objects[v].once.owner;
      assert ThreadOk(env, s.g, s.threads[u]);
      NoOverlap(env, s.g, th, s.threads[u]);
    }
  }

  lemma MonitorStepInv(env: Env, s: State, s': State, t: nat, l: Local)
    requires Base(env, s) && MonitorInv(env, s) && ThreadStep(s, s', t, l)
    ensures MonitorInv(env, s')
  {
    var th := s.threads[t];
    assert ThreadOk(env, s.g, th) && MonitorThreadOk(env, s.g, t, th);
    if th.pc.Cancel? && Covered(env, KeyOf(th.call)) { NotBusyAtCancel(env, s, t); }
    StepAfter(env, t, th, s.g, l);
    OrderedStep(env, s, s', t, l);
    BusyStep(env, s, s', t, l);
    forall u | u in s'.threads && u != t
      ensures MonitorThreadOk(env, s'.g, u, s'.threads[u])
    {
      var other := s.threads[u];
      assert ThreadOk(env, s.g, other) && MonitorThreadOk(env, s.g, u, other) && Apart(th, other);
      assert env.ordered ==> !Conflict(th.call, other.call) && !Conflict(other.call, th.call);
      StepOtherMonitor(env, t, th, s.g, l, u, other);
    }
    hide LocalStep, ThreadOk, MonitorThreadOk, ObjectsOk;
  }

  lemma OrderedStep(env: Env, s: State, s': State, t: nat, l: Local)
    requires Base(env, s) && Ordered(env, s) && ThreadStep(s, s', t, l)
    ensures Ordered(env, s')
  {
    assert ThreadOk(env, s.g, s.threads[t]);
    StepLock(t, s.threads[t], s.g, l);
    hide LocalStep, ThreadOk;
    assert forall u :: u in s'.threads ==> u in s.threads && s'.threads[u].call == s.threads[u].call;
  }

  lemma BusyStep(env: Env, s: State, s': State, t: nat, l: Local)
    requires Base(env, s) && MonitorInv(env, s) && ThreadStep(s, s', t, l)
    ensures BusyOk(s')
  {
    var th := s.threads[t];
    assert ThreadOk(env, s.g, th) && MonitorThreadOk(env, s.g, t, th);
    forall v | v in s'.g.objects && s'.g.objects[v].once.Busy?
      ensures var w := s'.g.objects[v].once.owner;
              w in s'.threads && InsideOnce(s'.threads[w]) && s'.threads[w].vs == Some(v)
    {
      StepClaims(env, t, th, s.g, l, v);
      hide LocalStep, ThreadOk, MonitorThreadOk, ObjectsOk;
    }
  }

  lemma MonitorBegin(env: Env, s: State, s': State, t: nat, c: Call)
    requires MonitorInv(env, s) && Begin(env, s, s', t, c)
    ensures MonitorInv(env, s')
  {
    hide ObjectsOk;
    assert forall d :: !Conflict(c, d) ==> !Conflict(d, c);
  }

  ghost predicate Inv(env: Env, s: State) {
    Base(env, s) && MonitorInv(env, s)
  }

  lemma InvNext(env: Env, s: State, s': State)
    requires env.disjoint && Inv(env, s) && Next(env, s, s')
    ensures Inv(env, s')
  {
    BaseNext(env, s, s');
    hide Base, MonitorInv, Begin, ThreadStep;
    if t, c :| Begin(env, s, s', t, c) {
      MonitorBegin(env, s, s', t, c);
    } else if t, l :| ThreadStep(s, s', t, l) {
      MonitorStepInv(env, s, s', t, l);
    } else {
      MonitorRestart(env, s, s');
    }
  }

  lemma MonitorRestart(env: Env, s: State, s': State)
    requires Restart(s, s')
    ensures MonitorInv(env, s')
  {
  }

  lemma {:induction false} InvRun(env: Env, run: seq<State>, i: nat)
    requires env.disjoint && Run(env, run) && i < |run|
    ensures Inv(env, run[i])
  {
    if i > 0 {
      hide Inv, Next;
      InvRun(env, run, i - 1);
      assert Next(env, run[i - 1], run[i - 1 + 1]);
      InvNext(env, run[i - 1], run[i]);
    }
  }

  // ----- What it gives -----

  predicate Live(g: Shared, m: nat) {
    m in g.monitors && m !in g.cancelled
  }

  predicate MonitorOf(g: Shared, m: nat, k: Path) {
    m in g.monitors && g.monitors[m] in g.objects && g.objects[g.monitors[m]].key == k
  }

  /** At most one uncancelled monitor per volume key, over every interleaving; for a staging
      key, over every ordered one. */
  lemma AtMostOneMonitor(env: Env, run: seq<State>, i: nat, k: Path, m: nat, n: nat)
    requires env.disjoint && Run(env, run) && i < |run|
    requires Covered(env, k)
    requires Live(run[i].g, m) && Live(run[i].g, n) && MonitorOf(run[i].g, m, k) && MonitorOf(run[i].g, n, k)
    ensures m == n
  {
    InvRun(env, run, i);
    var g := run[i].g;
    assert ObjectOk(env, g, g.monitors[m]) && ObjectOk(env, g, g.monitors[n]);
  }

  /** While no volume state is stored for a key, every monitor ever started for it is cancelled. */
  lemma NoStateNoMonitor(env: Env, run: seq<State>, i: nat, k: Path, m: nat)
    requires env.disjoint && Run(env, run) && i < |run|
    requires Covered(env, k) && k !in run[i].g.store && MonitorOf(run[i].g, m, k)
    ensures m in run[i].g.cancelled
  {
    InvRun(env, run, i);
    assert ObjectOk(env, run[i].g, run[i].g.monitors[m]);
  }

  /** Once unpublish, or unstage, has passed its cancel step, every monitor ever started for
      its key is cancelled. */
  lemma CancelledAfterUnpublish(env: Env, run: seq<State>, i: nat, t: nat, m: nat)
    requires env.disjoint && Run(env, run) && i < |run| && t in run[i].threads
    requires var th := run[i].threads[t]; IsUnpublish(th) && (th.pc.DeleteMap? || Deleted(th))
    requires var k := KeyOf(run[i].threads[t].call); Covered(env, k) && MonitorOf(run[i].g, m, k)
    ensures m in run[i].g.cancelled
  {
    InvRun(env, run, i);
    var g, th := run[i].g, run[i].threads[t];
    assert ThreadOk(env, g, th) && MonitorThreadOk(env, g, t, th) && ObjectOk(env, g, g.monitors[m]);
  }
}

/** What every run of the node server keeps: lock discipline and the shape of the store; and
    what more holds when staging paths are never target paths. */
module NodeInvariants {
  import opened GoStrings
  import opened NodeLifecycle

  predicate HasVs(th: Thread) {
    match th.pc
    case StoreMap | StoreCount | SetCancel | Spawn | LeaveOnce | Cancel | DeleteMap => th.vs.Some?
    case Acquire | Load => th.vs.None?
    case Check | Middle | MountIt => th.vs.Some? <==> th.call.Publish? && th.call.bucket != "_"
    case _ => true
  }

  predicate PcOk(th: Thread) {
    match th.call
    case Publish(_, bucket, _, _) =>
      && !th.pc.Cancel? && !th.pc.DeleteMap? && !th.pc.DeleteCount? && !th.pc.Cleanup?
      && (bucket == "_" ==> !th.pc.Load? && !th.pc.StoreMap? && !th.pc.StoreCount?)
    case PublishShared(_, _, _) =>
      th.pc in {Acquire, Middle, Load, StoreCount, Monitor, SetCancel, Spawn, LeaveOnce, Release}
    case Stage(_) => th.pc in {Acquire, Cleanup, Release}
    case _ => th.pc in {Acquire, Load, Cancel, DeleteMap, DeleteCount, Cleanup, Release}
  }

  /** A call is at a step of its own, holds its lock, and its volume state is of its key. */
  predicate ThreadCore(g: Shared, th: Thread) {
    && PcOk(th) && HasVs(th)
    && (th.vs.Some? ==> th.vs.value in g.objects && g.objects[th.vs.value].key == KeyOf(th.call))
    && (!th.pc.Acquire? ==> LockOf(th.call) in g.locks)
  }

  /** What distinct staging and target paths add: nobody interferes between look-up and use. */
  predicate ThreadAlone(env: Env, g: Shared, th: Thread) {
    && PathsOk(env, th.call)
    && (th.pc.StoreMap? ==> KeyOf(th.call) !in g.store)
    && (th.pc.Cancel? || th.pc.DeleteMap? ==>
          th.vs.Some? && KeyOf(th.call) in g.store && g.store[KeyOf(th.call)] == th.vs.value)
  }

  predicate ThreadOk(env: Env, g: Shared, th: Thread) {
    ThreadCore(g, th) && ThreadAlone(env, g, th)
  }

  /** Two calls past their try-lock are on different paths. */
  predicate Apart(a: Thread, b: Thread) {
    !a.pc.Acquire? && !b.pc.Acquire? ==> LockOf(a.call) != LockOf(b.call)
  }

  ghost predicate Exclusive(s: State) {
    forall t, u :: t in s.threads && u in s.threads && t != u ==> Apart(s.threads[t], s.threads[u])
  }

  ghost predicate StoreOk(g: Shared) {
    && (forall k :: k in g.store ==> g.store[k] in g.objects && g.objects[g.store[k]].key == k)
    && (forall v :: v in g.objects ==> v < g.next)
  }

  ghost predicate Core(s: State) {
    && (forall t :: t in s.threads ==> ThreadCore(s.g, s.threads[t]))
    && Exclusive(s) && StoreOk(s.g)
  }

  ghost predicate Base(env: Env, s: State) {
    && (forall t :: t in s.threads ==> ThreadOk(env, s.g, s.threads[t]))
    && Exclusive(s) && StoreOk(s.g)
  }

  // ----- What one step can touch -----

  /** The lock is taken on leaving `Acquire` and given back on returning. */
  predicate OnlyLock(th: Thread, g: Shared, l: Local) {
    var lock := LockOf(th.call);
    if th.pc.Acquire? then
      if l.th.Some? then lock !in g.locks && l.g.locks == g.locks + {lock} else l.g == g
    else
      l.g.locks == if l.th.Some? then g.locks else g.locks - {lock}
  }

  predicate SameCall(th: Thread, l: Local) {
    l.th.Some? ==> l.th.value.call == th.call && !l.th.value.pc.Acquire?
  }

  /** The store changes at most under the call's own key. */
  predicate OnlyKey(th: Thread, g: Shared, l: Local) {
    var k := KeyOf(th.call);
    || l.g.store == g.store
    || (&& th.pc.StoreMap? && l.th.Some? && l.th.value.vs == th.vs && th.vs.Some?
        && l.g.store == g.store[k := th.vs.value])
    || (&& th.pc.Load? && th.call.PublishShared? && k !in g.store && l.th.Some? && l.th.value.vs == Some(g.next)
        && l.g.store == g.store[k := g.next] && l.g.objects == Allocate(g, k).objects)
    || (th.pc.DeleteMap? && l.g.store == g.store - {k})
  }

  /** How the call's own volume state may change. */
  predicate OwnChange(t: nat, th: Thread, g: Shared, l: Local, o: VolumeState, o': VolumeState) {
    || (&& th.pc.Check? && th.call.Publish? && o' == o.(checked := true)
        && l.g.log == g.log + [Checked(th.call.target)])
    || (th.pc.Monitor? && o.once.Fresh? && Wanted(th) && o' == o.(once := Busy(t)))
    || (th.pc.SetCancel? && o' == o.(cancel := Some(g.next)))
    || (th.pc.LeaveOnce? && o' == o.(once := Done))
  }

  /** Volume states are left alone, or one is made, or the call's own one changes. */
  predicate OnlyObject(t: nat, th: Thread, g: Shared, l: Local) {
    && g.next <= l.g.next
    && (|| l.g.objects == g.objects
        || (&& th.pc.Load? && l.g.next == g.next + 1 && l.th.Some? && l.th.value.vs == Some(g.next)
            && l.g.objects == Allocate(g, KeyOf(th.call)).objects)
        || (&& th.vs.Some? && th.vs.value in g.objects && th.vs.value in l.g.objects
            && l.th.Some? && l.th.value.vs == th.vs
            && l.g.objects == g.objects[th.vs.value := l.g.objects[th.vs.value]]
            && OwnChange(t, th, g, l, g.objects[th.vs.value], l.g.objects[th.vs.value])))
  }

  lemma StepLock(t: nat, th: Thread, g: Shared, l: Local)
    requires LocalStep(t, th, g, l)
    ensures SameCall(th, l) && OnlyLock(th, g, l)
  {
  }

  lemma StepKey(t: nat, th: Thread, g: Shared, l: Local)
    requires LocalStep(t, th, g, l)
    ensures OnlyKey(th, g, l)
  {
  }

  predicate TouchesObject(pc: Pc) {
    pc in {Load, Check, Monitor, SetCancel, LeaveOnce}
  }

  lemma StepNoObject(t: nat, th: Thread, g: Shared, l: Local)
    requires LocalStep(t, th, g, l) && !TouchesObject(th.pc)
    ensures l.g.objects == g.objects && l.g.next == g.next
  {
    hide Wrap32;
  }

  lemma StepOneObject(t: nat, th: Thread, g: Shared, l: Local)
    requires LocalStep(t, th, g, l) && TouchesObject(th.pc)
    ensures OnlyObject(t, th, g, l)
  {
  }

  lemma StepObject(t: nat, th: Thread, g: Shared, l: Local)
    requires LocalStep(t, th, g, l)
    ensures OnlyObject(t, th, g, l)
  {
    if TouchesObject(th.pc) {
      StepOneObject(t, th, g, l);
    } else {
      StepNoObject(t, th, g, l);
    }
    hide LocalStep, OwnChange;
  }

  lemma StepShape(t: nat, th: Thread, g: Shared, l: Local)
    requires LocalStep(t, th, g, l) && PcOk(th) && HasVs(th) && l.th.Some?
    ensures PcOk(l.th.value) && HasVs(l.th.value)
  {
    hide Wrap32;
  }

  /** The volume state of a call only ever becomes the stored or a new one of its key. */
  predicate OwnVs(th: Thread, g: Shared, l: Local) {
    l.th.Some? ==>
      || l.th.value.vs == th.vs
      || (l.th.value.vs == Some(g.next) && l.g.objects == Allocate(g, KeyOf(th.call)).objects)
      || (KeyOf(th.call) in g.store && l.th.value.vs == Some(g.store[KeyOf(th.call)]))
  }

  lemma StepVs(t: nat, th: Thread, g: Shared, l: Local)
    requires LocalStep(t, th, g, l)
    ensures OwnVs(th, g, l)
  {
    hide Wrap32;
  }

  /** Volume states stay, keep their keys, and new ones have new ids. */
  ghost predicate ObjectsGrow(g: Shared, g': Shared) {
    && g.next <= g'.next
    && (forall v :: v in g.objects ==> v in g'.objects && g'.objects[v].key == g.objects[v].key)
    && (forall v :: v in g'.objects && v !in g.objects ==> g.next <= v < g'.next)
  }

  lemma StepGrows(t: nat, th: Thread, g: Shared, l: Local)
    requires LocalStep(t, th, g, l) && StoreOk(g)
    ensures ObjectsGrow(g, l.g)
  {
    StepObject(t, th, g, l);
    hide LocalStep;
  }

  // ----- Every run -----

  lemma StepStore(t: nat, th: Thread, g: Shared, l: Local)
    requires LocalStep(t, th, g, l) && StoreOk(g) && ThreadCore(g, th)
    ensures StoreOk(l.g)
  {
    StepGrows(t, th, g, l);
    StepKey(t, th, g, l);
    hide LocalStep;
  }

  lemma StepOwnCore(t: nat, th: Thread, g: Shared, l: Local)
    requires LocalStep(t, th, g, l) && StoreOk(g) && ThreadCore(g, th) && l.th.Some?
    ensures ThreadCore(l.g, l.th.value)
  {
    StepShape(t, th, g, l);
    StepLock(t, th, g, l);
    StepVs(t, th, g, l);
    StepGrows(t, th, g, l);
    hide LocalStep, PcOk, HasVs;
  }

  /** A step of one call does not disturb another one. */
  lemma StepOtherCore(t: nat, th: Thread, g: Shared, l: Local, other: Thread)
    requires LocalStep(t, th, g, l) && StoreOk(g) && ThreadCore(g, th) && ThreadCore(g, other) && Apart(th, other)
    ensures ThreadCore(l.g, other)
    ensures l.th.Some? ==> Apart(l.th.value, other)
  {
    StepLock(t, th, g, l);
    StepGrows(t, th, g, l);
    hide LocalStep, PcOk, HasVs;
  }

  lemma CoreStep(s: State, s': State, t: nat, l: Local)
    requires Core(s) && ThreadStep(s, s', t, l)
    ensures Core(s')
  {
    hide LocalStep, ThreadCore, Apart, StoreOk;
    var th := s.threads[t];
    StepStore(t, th, s.g, l);
    if l.th.Some? { StepOwnCore(t, th, s.g, l); }
    forall u | u in s'.threads && u != t
      ensures u in s.threads && ThreadCore(s'.g, s'.threads[u]) && (l.th.Some? ==> Apart(l.th.value, s'.threads[u]))
    {
      StepOtherCore(t, th, s.g, l, s.threads[u]);
    }
    ApartSymmetric();
  }

  lemma ApartSymmetric()
    ensures forall a, b :: Apart(a, b) ==> Apart(b, a)
  {
  }

  lemma CoreBegin(env: Env, s: State, s': State, t: nat, c: Call)
    requires Core(s) && Begin(env, s, s', t, c)
    ensures Core(s')
  {
  }

  lemma CoreNext(env: Env, s: State, s': State)
    requires Core(s) && Next(env, s, s')
    ensures Core(s')
  {
    hide Core, Begin, ThreadStep;
    if t, c :| Begin(env, s, s', t, c) {
      CoreBegin(env, s, s', t, c);
    } else if t, l :| ThreadStep(s, s', t, l) {
      CoreStep(s, s', t, l);
    } else {
      CoreRestart(s, s');
    }
  }

  lemma CoreRestart(s: State, s': State)
    requires Restart(s, s')
    ensures Core(s')
  {
  }

  /** In every run of any calls, calls past their try-lock are on different paths, and every
      stored volume state is the one of its key. */
  lemma {:induction false} CoreRun(env: Env, run: seq<State>, i: nat)
    requires Run(env, run) && i < |run|
    ensures Core(run[i])
  {
    if i > 0 {
      hide Core, Next;
      CoreRun(env, run, i - 1);
      assert Next(env, run[i - 1], run[i - 1 + 1]);
      CoreNext(env, run[i - 1], run[i]);
    }
  }

  // ----- With distinct staging and target paths -----

  lemma StepOwnAlone(env: Env, t: nat, th: Thread, g: Shared, l: Local)
    requires LocalStep(t, th, g, l) && ThreadOk(env, g, th) && l.th.Some?
    ensures ThreadAlone(env, l.g, l.th.value)
  {
    StepLock(t, th, g, l);
    hide PathsOk, Wrap32;
  }

  lemma StepOtherAlone(env: Env, t: nat, th: Thread, g: Shared, l: Local, other: Thread)
    requires LocalStep(t, th, g, l) && ThreadOk(env, g, th) && ThreadOk(env, g, other) && Apart(th, other)
    ensures ThreadAlone(env, l.g, other)
  {
    StepKey(t, th, g, l);
    hide LocalStep;
  }

  lemma BaseStep(env: Env, s: State, s': State, t: nat, l: Local)
    requires Base(env, s) && ThreadStep(s, s', t, l)
    ensures Base(env, s')
  {
    hide LocalStep, ThreadCore, ThreadAlone, Apart, StoreOk;
    var th := s.threads[t];
    CoreStep(s, s', t, l);
    if l.th.Some? { StepOwnAlone(env, t, th, s.g, l); }
    forall u | u in s'.threads && u != t
      ensures ThreadAlone(env, s'.g, s'.threads[u])
    {
      StepOtherAlone(env, t, th, s.g, l, s.threads[u]);
    }
  }

  lemma BaseBegin(env: Env, s: State, s': State, t: nat, c: Call)
    requires env.disjoint && Base(env, s) && Begin(env, s, s', t, c)
    ensures Base(env, s')
  {
  }

  lemma BaseNext(env: Env, s: State, s': State)
    requires env.disjoint && Base(env, s) && Next(env, s, s')
    ensures Base(env, s')
  {
    hide Base, Begin, ThreadStep;
    if t, c :| Begin(env, s, s', t, c) {
      BaseBegin(env, s, s', t, c);
    } else if t, l :| ThreadStep(s, s', t, l) {
      BaseStep(env, s, s', t, l);
    } else {
      BaseRestart(env, s, s');
    }
  }

  lemma BaseRestart(env: Env, s: State, s': State)
    requires Restart(s, s')
    ensures Base(env, s')
  {
  }

  /** With distinct staging and target paths a call also finds its key as it left it: missing
      before it stores, and holding its own volume state until it deletes. */
  lemma {:induction false} BaseRun(env: Env, run: seq<State>, i: nat)
    requires env.disjoint && Run(env, run) && i < |run|
    ensures Base(env, run[i])
  {
    if i > 0 {
      hide Base, Next;
      BaseRun(env, run, i - 1);
      assert Next(env, run[i - 1], run[i - 1 + 1]);
      BaseNext(env, run[i - 1], run[i]);
    }
  }
}

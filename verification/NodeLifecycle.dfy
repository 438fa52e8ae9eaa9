/** The node server's volume calls as interleaved atomic steps over per-path locks, the
    volume state store, its counter, and the once-only kernel-params monitors
    (pkg/csi_driver/node.go, pkg/util/volume_lock.go, pkg/util/volume_state_store_lock.go).

    API answers, mount results and feature checks are nondeterministic. */
module NodeLifecycle {
  import opened GoStrings

  type Path = string

  datatype Call =
    | Publish(target: Path, bucket: string, skipCheck: bool, monitored: bool)
    | PublishShared(target: Path, staging: Path, monitored: bool)
    | Unpublish(target: Path)
    | Stage(staging: Path)
    | Unstage(staging: Path)

  /** The next atomic step of a call. */
  datatype Pc =
    | Acquire      // TryAcquire on the call's path
    | Load         // look the volume state up (LoadOrStore for shared mounts)
    | StoreMap     // put a new volume state into the map ...
    | StoreCount   // ... and add one to the counter
    | Check        // bucket access check
    | Middle       // everything up to the mount decision
    | MountIt      // the FUSE mount
    | Monitor      // enter sync.Once
    | SetCancel    // inside Once: remember the cancel function
    | Spawn        // inside Once: start the monitor goroutine
    | LeaveOnce    // Once is done
    | Cancel       // call the remembered cancel function
    | DeleteMap    // take the volume state out of the map ...
    | DeleteCount  // ... and subtract one from the counter
    | Cleanup      // unmount
    | Release      // release the lock and return

  datatype Thread = Thread(call: Call, pc: Pc, vs: Option<nat>)

  datatype Once = Fresh | Busy(owner: nat) | Done

  /** `key` is the path the state was created for; the driver does not store it. */
  datatype VolumeState = VolumeState(key: Path, checked: bool, once: Once, cancel: Option<nat>)

  datatype Event = Checked(path: Path) | FuseMount(path: Path, bucket: string, skipCheck: bool) | Unpublished(path: Path) | Restarted

  /** Everything the calls share. */
  datatype Shared = Shared(
    locks: set<Path>,
    store: map<Path, nat>,
    size: int,
    objects: map<nat, VolumeState>,  // every volume state ever allocated
    monitors: map<nat, nat>,         // started monitors, each with the volume state it belongs to
    cancelled: set<nat>,             // monitors whose cancel function has been called
    next: nat,                       // fresh ids
    log: seq<Event>)

  datatype State = State(threads: map<nat, Thread>, g: Shared)

  /** What the caller of the driver guarantees. `stagings`: a staging path is never a target
      path. `ordered`: per the CSI specification's NodeUnstageVolume section, no shared
      publish of a staging path is in progress together with its unstage. */
  datatype Env = Env(stagings: set<Path>, disjoint: bool, ordered: bool)

  function LockOf(c: Call): Path {
    match c
    case Publish(t, _, _, _) => t
    case PublishShared(t, _, _) => t
    case Unpublish(t) => t
    case Stage(s) => s
    case Unstage(s) => s
  }

  /** The path under which the call's volume state is kept. */
  function KeyOf(c: Call): Path {
    match c
    case PublishShared(_, s, _) => s
    case _ => LockOf(c)
  }

  /** int32 arithmetic. */
  function Wrap32(x: int): int {
    (x + 0x8000_0000) % 0x1_0000_0000 - 0x8000_0000
  }

  predicate Init(s: State) {
    s == State(map[], Shared({}, map[], 0, map[], map[], {}, 0, []))
  }

  // ----- Calls beginning, and the driver restarting -----

  /** Target paths and staging paths are told apart. */
  predicate PathsOk(env: Env, c: Call) {
    match c
    case Publish(t, _, _, _) => t !in env.stagings
    case PublishShared(t, st, _) => t !in env.stagings && st in env.stagings
    case Unpublish(t) => t !in env.stagings
    case Stage(st) => st in env.stagings
    case Unstage(st) => st in env.stagings
  }

  predicate Admissible(env: Env, s: State, c: Call) {
    && (env.disjoint ==> PathsOk(env, c))
    && (env.ordered ==> forall t :: t in s.threads ==> !Conflict(c, s.threads[t].call))
  }

  predicate Conflict(c: Call, d: Call) {
    || (c.PublishShared? && d.Unstage? && c.staging == d.staging)
    || (c.Unstage? && d.PublishShared? && c.staging == d.staging)
  }

  predicate Begin(env: Env, s: State, s': State, t: nat, c: Call) {
    && t !in s.threads && Admissible(env, s, c)
    && s' == s.(threads := s.threads[t := Thread(c, Acquire, None)])
  }

  /** In-memory state is lost; goroutines end with the process. */
  predicate Restart(s: State, s': State) {
    s' == State(map[], Shared({}, map[], 0, map[], map[], {}, s.g.next, s.g.log + [Restarted]))
  }

  // ----- One step of call `t`: its new thread, or none once it has returned, and the
  // ----- new shared state.

  datatype Local = Local(th: Option<Thread>, g: Shared)

  function At(th: Thread, pc: Pc, g: Shared): Local {
    Local(Some(th.(pc := pc)), g)
  }

  function FirstPc(c: Call): Pc {
    match c
    case Publish(_, bucket, _, _) => if bucket == "_" then Check else Load
    case PublishShared(_, _, _) => Middle
    case Stage(_) => Cleanup
    case _ => Load
  }

  function AcquireStep(th: Thread, g: Shared): Local {
    var l := LockOf(th.call);
    if l in g.locks then Local(None, g)
    else At(th, FirstPc(th.call), g.(locks := g.locks + {l}))
  }

  function Allocate(g: Shared, key: Path): Shared {
    g.(objects := g.objects[g.next := VolumeState(key, false, Fresh, None)], next := g.next + 1)
  }

  function LoadStep(th: Thread, g: Shared): Local {
    var k := KeyOf(th.call);
    if k in g.store then
      At(th.(vs := Some(g.store[k])), if th.call.Publish? then Check else if th.call.PublishShared? then Monitor else Cancel, g)
    else if th.call.Publish? then At(th.(vs := Some(g.next)), StoreMap, Allocate(g, k))
    else if th.call.PublishShared? then At(th.(vs := Some(g.next)), StoreCount, Allocate(g, k).(store := g.store[k := g.next]))
    else At(th, Cleanup, g)
  }

  predicate CheckStep(th: Thread, g: Shared, l: Local) {
    if th.vs.None? || th.vs.value !in g.objects || !th.call.Publish? || th.call.skipCheck || g.objects[th.vs.value].checked then
      l == At(th, Middle, g)
    else
      var o := g.objects[th.vs.value];
      || l == At(th, Release, g)
      || l == At(th, Middle, g.(objects := g.objects[th.vs.value := o.(checked := true)], log := g.log + [Checked(th.call.target)]))
  }

  predicate MiddleStep(th: Thread, g: Shared, l: Local) {
    || l == At(th, Release, g)
    || (th.call.PublishShared? && l == At(th, Load, g))
    || (th.call.Publish? && (l == At(th, MountIt, g) || l == At(th, Monitor, g)))
  }

  predicate MountStep(th: Thread, g: Shared, l: Local) {
    || l == At(th, Release, g)
    || (th.call.Publish? && l == At(th, Monitor, g.(log := g.log + [FuseMount(th.call.target, th.call.bucket, th.call.skipCheck)])))
  }

  predicate Wanted(th: Thread) {
    (th.call.Publish? && th.call.monitored && th.call.bucket != "_") || (th.call.PublishShared? && th.call.monitored)
  }

  function WithOnce(g: Shared, v: nat, once: Once): Shared
    requires v in g.objects
  {
    g.(objects := g.objects[v := g.objects[v].(once := once)])
  }

  /** A second caller of Once.Do waits while the first is inside. */
  predicate MonitorStep(t: nat, th: Thread, g: Shared, l: Local) {
    if th.vs.None? || th.vs.value !in g.objects || !Wanted(th) then l == At(th, Release, g)
    else
      var v := th.vs.value;
      match g.objects[v].once
      case Fresh => l == At(th, SetCancel, WithOnce(g, v, Busy(t)))
      case Busy(_) => false
      case Done => l == At(th, Release, g)
  }

  predicate SetCancelStep(th: Thread, g: Shared, l: Local) {
    && th.vs.Some? && th.vs.value in g.objects
    && var v := th.vs.value;
       l == At(th, Spawn, g.(objects := g.objects[v := g.objects[v].(cancel := Some(g.next))], next := g.next + 1))
  }

  predicate SpawnStep(th: Thread, g: Shared, l: Local) {
    && th.vs.Some? && th.vs.value in g.objects && g.objects[th.vs.value].cancel.Some?
    && l == At(th, LeaveOnce, g.(monitors := g.monitors[g.objects[th.vs.value].cancel.value := th.vs.value]))
  }

  predicate LeaveOnceStep(th: Thread, g: Shared, l: Local) {
    th.vs.Some? && th.vs.value in g.objects && l == At(th, Release, WithOnce(g, th.vs.value, Done))
  }

  predicate CancelStep(th: Thread, g: Shared, l: Local) {
    && th.vs.Some? && th.vs.value in g.objects
    && var cancel := g.objects[th.vs.value].cancel;
       l == At(th, DeleteMap, if cancel.Some? then g.(cancelled := g.cancelled + {cancel.value}) else g)
  }

  function ReleaseStep(th: Thread, g: Shared): Local {
    var log := if th.call.Unpublish? then g.log + [Unpublished(th.call.target)] else g.log;
    Local(None, g.(locks := g.locks - {LockOf(th.call)}, log := log))
  }

  predicate LocalStep(t: nat, th: Thread, g: Shared, l: Local) {
    var k := KeyOf(th.call);
    match th.pc
    case Acquire => l == AcquireStep(th, g)
    case Load => l == LoadStep(th, g)
    case StoreMap => th.vs.Some? && l == At(th, StoreCount, g.(store := g.store[k := th.vs.value]))
    case StoreCount => l == At(th, if th.call.Publish? then Check else Monitor, g.(size := Wrap32(g.size + 1)))
    case Check => CheckStep(th, g, l)
    case Middle => MiddleStep(th, g, l)
    case MountIt => MountStep(th, g, l)
    case Monitor => MonitorStep(t, th, g, l)
    case SetCancel => SetCancelStep(th, g, l)
    case Spawn => SpawnStep(th, g, l)
    case LeaveOnce => LeaveOnceStep(th, g, l)
    case Cancel => CancelStep(th, g, l)
    case DeleteMap => l == At(th, DeleteCount, g.(store := g.store - {k}))
    case DeleteCount => l == At(th, Cleanup, g.(size := Wrap32(g.size - 1)))
    case Cleanup => l == At(th, Release, g)
    case Release => l == ReleaseStep(th, g)
  }

  function Apply(s: State, t: nat, l: Local): State {
    State(if l.th.Some? then s.threads[t := l.th.value] else s.threads - {t}, l.g)
  }

  ghost predicate ThreadStep(s: State, s': State, t: nat, l: Local) {
    t in s.threads && LocalStep(t, s.threads[t], s.g, l) && s' == Apply(s, t, l)
  }

  ghost predicate Next(env: Env, s: State, s': State) {
    || (exists t, c :: Begin(env, s, s', t, c))
    || Restart(s, s')
    || (exists t, l :: ThreadStep(s, s', t, l))
  }

  ghost predicate Run(env: Env, run: seq<State>) {
    && run != [] && Init(run[0])
    && forall i :: 0 <= i < |run| - 1 ==> Next(env, run[i], run[i + 1])
  }
}

/** Why the node lifecycle theorems ask their callers for disjoint staging and target paths,
    and for unstage after publish: runs that break them otherwise (pkg/csi_driver/node.go). */
module NodeAssumptions {
  import opened GoStrings
  import opened NodeLifecycle
  import opened NodeMonitors

  ghost predicate Reachable(env: Env, s: State) {
    exists run :: Run(env, run) && run[|run| - 1] == s
  }

  lemma Reach(env: Env, s: State, s': State)
    requires Reachable(env, s) && Next(env, s, s')
    ensures Reachable(env, s')
  {
    hide Next;
    var run :| Run(env, run) && run[|run| - 1] == s;
    var run' := run + [s'];
    forall i | 0 <= i < |run'| - 1
      ensures Next(env, run'[i], run'[i + 1])
    {
      if i < |run| - 1 { assert Next(env, run[i], run[i + 1]); }
    }
    assert Run(env, run') && run'[|run'| - 1] == s';
  }

  lemma Start(env: Env)
    ensures Reachable(env, State(map[], Shared({}, map[], 0, map[], map[], {}, 0, [])))
  {
    var s := State(map[], Shared({}, map[], 0, map[], map[], {}, 0, []));
    assert Run(env, [s]) && [s][|[s]| - 1] == s;
  }

  lemma Enter(env: Env, s: State, t: nat, c: Call, s': State)
    requires Reachable(env, s) && Begin(env, s, s', t, c)
    ensures Reachable(env, s')
  {
    Reach(env, s, s');
  }

  lemma Go(env: Env, s: State, t: nat, l: Local, s': State)
    requires Reachable(env, s) && t in s.threads && LocalStep(t, s.threads[t], s.g, l) && s' == Apply(s, t, l)
    ensures Reachable(env, s')
  {
    assert ThreadStep(s, s', t, l);
    Reach(env, s, s');
  }

  function Two(p: Thread, q: Thread): map<nat, Thread> {
    map[0 := p, 1 := q]
  }

  /** The first of two calls moves. */
  lemma First(env: Env, p: Thread, q: Thread, g: Shared, p': Thread, g': Shared)
    requires Reachable(env, State(Two(p, q), g)) && LocalStep(0, p, g, Local(Some(p'), g'))
    ensures Reachable(env, State(Two(p', q), g'))
  {
    hide Reachable, LocalStep;
    assert Two(p, q)[0 := p'] == Two(p', q);
    Go(env, State(Two(p, q), g), 0, Local(Some(p'), g'), State(Two(p', q), g'));
  }

  /** The second of two calls moves. */
  lemma Second(env: Env, p: Thread, q: Thread, g: Shared, q': Thread, g': Shared)
    requires Reachable(env, State(Two(p, q), g)) && LocalStep(1, q, g, Local(Some(q'), g'))
    ensures Reachable(env, State(Two(p, q'), g'))
  {
    hide Reachable, LocalStep;
    assert Two(p, q)[1 := q'] == Two(p, q');
    Go(env, State(Two(p, q), g), 1, Local(Some(q'), g'), State(Two(p, q'), g'));
  }

  lemma BothEnter(env: Env, c: Call, d: Call)
    requires !env.disjoint || (c == PublishShared(Y, X, true) && d == Unstage(X) && X in env.stagings && Y !in env.stagings)
    requires !env.ordered || !Conflict(d, c)
    ensures Reachable(env, State(Two(Thread(c, Acquire, None), Thread(d, Acquire, None)), EMPTY))
  {
    Start(env);
    hide Reachable;
    var s1 := State(map[0 := Thread(c, Acquire, None)], EMPTY);
    Enter(env, State(map[], EMPTY), 0, c, s1);
    var s2 := State(Two(Thread(c, Acquire, None), Thread(d, Acquire, None)), EMPTY);
    assert s1.threads[1 := Thread(d, Acquire, None)] == s2.threads;
    Enter(env, s1, 1, d, s2);
  }

  const EMPTY := Shared({}, map[], 0, map[], map[], {}, 0, [])
  const X: Path := "x"
  const Y: Path := "y"
  const FRESH := VolumeState(X, false, Fresh, None)

  // ----- One path used both as a target and as a staging path -----

  const OVERLAPPING := Env({}, false, true)
  const P := Publish(X, "b", true, true)
  const Q := PublishShared(Y, X, true)

  /** The publish has found no volume state and made one; then the shared publish does the same. */
  lemma ReachBothMade() returns (g: Shared)
    ensures Reachable(OVERLAPPING, State(Two(Thread(P, StoreMap, Some(0)), Thread(Q, StoreCount, Some(1))), g))
    ensures g == Shared(g.locks, map[X := 1], 0, map[0 := FRESH, 1 := FRESH], map[], {}, 2, [])
  {
    var env := OVERLAPPING;
    BothEnter(env, P, Q);
    hide Reachable;
    var p, q := Thread(P, Load, None), Thread(Q, Acquire, None);
    var g1 := EMPTY.(locks := EMPTY.locks + {X});
    First(env, Thread(P, Acquire, None), q, EMPTY, p, g1);
    var g2 := Allocate(g1, X);
    var p' := Thread(P, StoreMap, Some(0));
    First(env, p, q, g1, p', g2);
    var g3 := g2.(locks := g2.locks + {Y});
    Second(env, p', q, g2, q.(pc := Middle), g3);
    Second(env, p', q.(pc := Middle), g3, q.(pc := Load), g3);
    g := Allocate(g3, X).(store := g3.store[X := 1]);
    Second(env, p', q.(pc := Load), g3, Thread(Q, StoreCount, Some(1)), g);
  }

  /** The shared publish starts its monitor. */
  lemma ReachStarted() returns (g: Shared)
    ensures Reachable(OVERLAPPING, State(Two(Thread(P, StoreMap, Some(0)), Thread(Q, LeaveOnce, Some(1))), g))
    ensures g == Shared(g.locks, map[X := 1], 1, map[0 := FRESH, 1 := VolumeState(X, false, Busy(1), Some(2))], map[2 := 1], {}, 3, [])
  {
    var env := OVERLAPPING;
    var g0 := ReachBothMade();
    hide Reachable;
    var p, q := Thread(P, StoreMap, Some(0)), Thread(Q, StoreCount, Some(1));
    var g1 := g0.(size := 1);
    Second(env, p, q, g0, q.(pc := Monitor), g1);
    var g2 := WithOnce(g1, 1, Busy(1));
    Second(env, p, q.(pc := Monitor), g1, q.(pc := SetCancel), g2);
    var g3 := g2.(objects := g2.objects[1 := g2.objects[1].(cancel := Some(2))], next := 3);
    Second(env, p, q.(pc := SetCancel), g2, q.(pc := Spawn), g3);
    g := g3.(monitors := g3.monitors[2 := 1]);
    Second(env, p, q.(pc := Spawn), g3, q.(pc := LeaveOnce), g);
  }

  /** The publish stores its own state over the other. */
  lemma ReachOverwritten() returns (g: Shared)
    ensures Reachable(OVERLAPPING, State(Two(Thread(P, Check, Some(0)), Thread(Q, LeaveOnce, Some(1))), g))
    ensures g == Shared(g.locks, map[X := 0], 2, map[0 := FRESH, 1 := VolumeState(X, false, Busy(1), Some(2))], map[2 := 1], {}, 3, [])
  {
    var env := OVERLAPPING;
    var g0 := ReachStarted();
    hide Reachable;
    var p, q := Thread(P, StoreMap, Some(0)), Thread(Q, LeaveOnce, Some(1));
    var g1 := g0.(store := g0.store[X := 0]);
    First(env, p, q, g0, p.(pc := StoreCount), g1);
    g := g1.(size := 2);
    First(env, p.(pc := StoreCount), q, g1, p.(pc := Check), g);
  }

  /** The counter theorem fails: two are counted and one is stored, and no call is between its
      steps. */
  lemma OverlapBreaksCounter() returns (s: State)
    ensures Reachable(OVERLAPPING, s) && s.g.size == 2 && |s.g.store| == 1
    ensures forall t :: t in s.threads ==> !s.threads[t].pc.StoreCount? && !s.threads[t].pc.DeleteCount?
  {
    var g := ReachOverwritten();
    hide Reachable;
    s := State(Two(Thread(P, Check, Some(0)), Thread(Q, LeaveOnce, Some(1))), g);
  }

  lemma ReachEntered() returns (g: Shared)
    ensures Reachable(OVERLAPPING, State(Two(Thread(P, Monitor, Some(0)), Thread(Q, LeaveOnce, Some(1))), g))
    ensures g == Shared(g.locks, map[X := 0], 2, map[0 := FRESH, 1 := VolumeState(X, false, Busy(1), Some(2))], map[2 := 1], {}, 3, [])
  {
    var env := OVERLAPPING;
    g := ReachOverwritten();
    hide Reachable;
    var p, q := Thread(P, Check, Some(0)), Thread(Q, LeaveOnce, Some(1));
    First(env, p, q, g, p.(pc := Middle), g);
    First(env, p.(pc := Middle), q, g, p.(pc := Monitor), g);
  }

  /** The monitor theorem fails: two live monitors for one key. */
  lemma OverlapBreaksMonitors() returns (s: State)
    ensures Reachable(OVERLAPPING, s)
    ensures Live(s.g, 2) && Live(s.g, 3) && MonitorOf(s.g, 2, X) && MonitorOf(s.g, 3, X)
  {
    var env := OVERLAPPING;
    var g := ReachEntered();
    hide Reachable;
    var p, q := Thread(P, Monitor, Some(0)), Thread(Q, LeaveOnce, Some(1));
    var g1 := WithOnce(g, 0, Busy(0));
    First(env, p, q, g, p.(pc := SetCancel), g1);
    var g2 := g1.(objects := g1.objects[0 := g1.objects[0].(cancel := Some(3))], next := 4);
    First(env, p.(pc := SetCancel), q, g1, p.(pc := Spawn), g2);
    var g3 := g2.(monitors := g2.monitors[3 := 0]);
    First(env, p.(pc := Spawn), q, g2, p.(pc := LeaveOnce), g3);
    s := State(Two(p.(pc := LeaveOnce), q), g3);
  }

  // ----- An unstage overlapping a shared publish -----

  const UNORDERED := Env({X}, true, false)
  const U := Unstage(X)

  /** The shared publish has stored its volume state, and the unstage is past its cancel step. */
  lemma ReachUnstaged() returns (g: Shared)
    ensures Reachable(UNORDERED, State(Two(Thread(Q, Monitor, Some(0)), Thread(U, DeleteCount, Some(0))), g))
    ensures g == Shared(g.locks, map[], 1, map[0 := FRESH], map[], {}, 1, [])
  {
    var env := UNORDERED;
    var g0 := ReachShared();
    hide Reachable;
    var q, u := Thread(Q, Monitor, Some(0)), Thread(U, Acquire, None);
    var g1 := g0.(locks := g0.locks + {X});
    Second(env, q, u, g0, u.(pc := Load), g1);
    var u' := Thread(U, Cancel, Some(0));
    Second(env, q, u.(pc := Load), g1, u', g1);
    Second(env, q, u', g1, u'.(pc := DeleteMap), g1);
    g := g1.(store := g1.store - {X});
    Second(env, q, u'.(pc := DeleteMap), g1, u'.(pc := DeleteCount), g);
  }

  lemma ReachShared() returns (g: Shared)
    ensures Reachable(UNORDERED, State(Two(Thread(Q, Monitor, Some(0)), Thread(U, Acquire, None)), g))
    ensures g == Shared({Y}, map[X := 0], 1, map[0 := FRESH], map[], {}, 1, [])
  {
    var env := UNORDERED;
    BothEnter(env, Q, U);
    hide Reachable;
    var q, u := Thread(Q, Acquire, None), Thread(U, Acquire, None);
    var g1 := EMPTY.(locks := EMPTY.locks + {Y});
    First(env, q, u, EMPTY, q.(pc := Middle), g1);
    First(env, q.(pc := Middle), u, g1, q.(pc := Load), g1);
    var g2 := Allocate(g1, X).(store := g1.store[X := 0]);
    var q' := Thread(Q, StoreCount, Some(0));
    First(env, q.(pc := Load), u, g1, q', g2);
    g := g2.(size := 1);
    First(env, q', u, g2, q'.(pc := Monitor), g);
  }

  /** The cancel theorem fails: the unstage is past its cancel step and a monitor is live. */
  lemma UnorderedLeavesMonitor() returns (s: State)
    ensures Reachable(UNORDERED, s) && 1 in s.threads && s.threads[1] == Thread(U, DeleteCount, Some(0))
    ensures Live(s.g, 1) && MonitorOf(s.g, 1, X)
  {
    var env := UNORDERED;
    var g := ReachUnstaged();
    hide Reachable;
    var q, u := Thread(Q, Monitor, Some(0)), Thread(U, DeleteCount, Some(0));
    var g1 := WithOnce(g, 0, Busy(0));
    First(env, q, u, g, q.(pc := SetCancel), g1);
    var g2 := g1.(objects := g1.objects[0 := g1.objects[0].(cancel := Some(1))], next := 2);
    First(env, q.(pc := SetCancel), u, g1, q.(pc := Spawn), g2);
    var g3 := g2.(monitors := g2.monitors[1 := 0]);
    First(env, q.(pc := Spawn), u, g2, q.(pc := LeaveOnce), g3);
    s := State(Two(q.(pc := LeaveOnce), u), g3);
  }
}

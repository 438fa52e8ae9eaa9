/** What the volume calls get done: from every reachable state in which its path is free, a call
    can run through, and what it leaves behind is exactly this (pkg/csi_driver/node.go). */
module NodeCycle {
  import opened GoStrings
  import opened NodeLifecycle
  import opened NodeMonitors
  import opened NodeAssumptions

  // ----- Fresh ids -----

  /** Ids given out stay below `next`. */
  ghost predicate IdsBelow(g: Shared) {
    && (forall v :: v in g.objects ==> v < g.next && (g.objects[v].cancel.Some? ==> g.objects[v].cancel.value < g.next))
    && (forall m :: m in g.cancelled ==> m < g.next)
  }

  lemma IdsStep(t: nat, th: Thread, g: Shared, l: Local)
    requires IdsBelow(g) && LocalStep(t, th, g, l)
    ensures IdsBelow(l.g)
  {
  }

  lemma IdsNext(env: Env, s: State, s': State)
    requires IdsBelow(s.g) && Next(env, s, s')
    ensures IdsBelow(s'.g)
  {
    hide IdsBelow, LocalStep;
    if Restart(s, s') {
      IdsRestart(s, s');
    } else if t, l :| ThreadStep(s, s', t, l) {
      IdsStep(t, s.threads[t], s.g, l);
    }
  }

  lemma IdsRestart(s: State, s': State)
    requires Restart(s, s')
    ensures IdsBelow(s'.g)
  {
  }

  lemma {:induction false} IdsRun(env: Env, run: seq<State>, i: nat)
    requires Run(env, run) && i < |run|
    ensures IdsBelow(run[i].g)
    decreases i
  {
    hide Next;
    if i > 0 {
      IdsRun(env, run, i - 1);
      assert Next(env, run[i - 1], run[i]);
      IdsNext(env, run[i - 1], run[i]);
    }
  }

  lemma IdsReachable(env: Env, s: State)
    requires Reachable(env, s)
    ensures IdsBelow(s.g)
  {
    hide Next, IdsBelow;
    var run :| Run(env, run) && run[|run| - 1] == s;
    IdsRun(env, run, |run| - 1);
  }

  // ----- One call moving while the others stand still -----

  lemma Begins(env: Env, s: State, t: nat, c: Call)
    requires Reachable(env, s) && t !in s.threads && Admissible(env, s, c)
    ensures Reachable(env, State(s.threads[t := Thread(c, Acquire, None)], s.g))
  {
    hide Reachable, Admissible;
    Enter(env, s, t, c, State(s.threads[t := Thread(c, Acquire, None)], s.g));
  }

  lemma Moves(env: Env, ts: map<nat, Thread>, t: nat, th: Thread, g: Shared, th': Thread, g': Shared)
    requires Reachable(env, State(ts[t := th], g)) && LocalStep(t, th, g, Local(Some(th'), g'))
    ensures Reachable(env, State(ts[t := th'], g'))
  {
    hide Reachable, LocalStep;
    assert ts[t := th][t := th'] == ts[t := th'];
    Go(env, State(ts[t := th], g), t, Local(Some(th'), g'), State(ts[t := th'], g'));
  }

  lemma Returns(env: Env, ts: map<nat, Thread>, t: nat, th: Thread, g: Shared)
    requires t !in ts && th.pc.Release? && Reachable(env, State(ts[t := th], g))
    ensures Reachable(env, State(ts, ReleaseStep(th, g).g))
  {
    hide Reachable;
    assert ts[t := th] - {t} == ts;
    Go(env, State(ts[t := th], g), t, ReleaseStep(th, g), State(ts, ReleaseStep(th, g).g));
  }

  // ----- The monitor -----

  /** What a publishing call with volume state `v` does from `Monitor` on: it starts the monitor the
      first time one is wanted. */
  function Watched(g: Shared, th: Thread): Shared
    requires th.vs.Some? && th.vs.value in g.objects
  {
    var v := th.vs.value;
    var o := g.objects[v];
    if Wanted(th) && o.once.Fresh? then
      g.(objects := g.objects[v := o.(once := Done, cancel := Some(g.next))],
         monitors := g.monitors[g.next := v], next := g.next + 1)
    else g
  }

  lemma StartsMonitor(env: Env, ts: map<nat, Thread>, t: nat, th: Thread, g: Shared)
    requires th.pc.Monitor? && th.vs.Some? && th.vs.value in g.objects && !g.objects[th.vs.value].once.Busy?
    requires Reachable(env, State(ts[t := th], g))
    ensures Reachable(env, State(ts[t := th.(pc := Release)], Watched(g, th)))
  {
    hide Reachable, Wanted;
    var v := th.vs.value;
    if Wanted(th) && g.objects[v].once.Fresh? {
      var g1 := WithOnce(g, v, Busy(t));
      Moves(env, ts, t, th, g, th.(pc := SetCancel), g1);
      var g2 := g1.(objects := g1.objects[v := g1.objects[v].(cancel := Some(g1.next))], next := g1.next + 1);
      Moves(env, ts, t, th.(pc := SetCancel), g1, th.(pc := Spawn), g2);
      var g3 := g2.(monitors := g2.monitors[g.next := v]);
      Moves(env, ts, t, th.(pc := Spawn), g2, th.(pc := LeaveOnce), g3);
      var g4 := WithOnce(g3, v, Done);
      Moves(env, ts, t, th.(pc := LeaveOnce), g3, th.(pc := Release), g4);
      assert g4.objects == Watched(g, th).objects;
    } else {
      Moves(env, ts, t, th, g, th.(pc := Release), g);
    }
  }

  // ----- Publishing -----

  /** From `Check` on, with the volume state at hand and every answer good: check unless that is
      skipped or was done, mount, and start the monitor. */
  lemma ChecksAndMounts(env: Env, ts: map<nat, Thread>, t: nat, th: Thread, g: Shared) returns (g': Shared)
    requires t !in ts && th.pc.Check? && th.call.Publish? && Reachable(env, State(ts[t := th], g))
    requires th.vs.Some? && th.vs.value in g.objects && !g.objects[th.vs.value].once.Busy?
    ensures Reachable(env, State(ts, g'))
    ensures var o := g.objects[th.vs.value];
            var checks := !th.call.skipCheck && !o.checked;
            var log := g.log + (if checks then [Checked(th.call.target)] else []) + [FuseMount(th.call.target, th.call.bucket, th.call.skipCheck)];
            var mid := g.(objects := g.objects[th.vs.value := o.(checked := o.checked || checks)], log := log);
            g' == Watched(mid, th).(locks := g.locks - {th.call.target})
  {
    hide Reachable;
    var v := th.vs.value;
    var o := g.objects[v];
    var checks := !th.call.skipCheck && !o.checked;
    var g1 := if checks then g.(objects := g.objects[v := o.(checked := true)], log := g.log + [Checked(th.call.target)]) else g;
    Moves(env, ts, t, th, g, th.(pc := Middle), g1);
    Moves(env, ts, t, th.(pc := Middle), g1, th.(pc := MountIt), g1);
    var g2 := g1.(log := g1.log + [FuseMount(th.call.target, th.call.bucket, th.call.skipCheck)]);
    Moves(env, ts, t, th.(pc := MountIt), g1, th.(pc := Monitor), g2);
    StartsMonitor(env, ts, t, th.(pc := Monitor), g2);
    g' := ReleaseStep(th.(pc := Release), Watched(g2, th)).g;
    Returns(env, ts, t, th.(pc := Release), Watched(g2, th));
    assert g.log + [] == g.log;
    assert !checks ==> g.objects[v := o] == g.objects;
  }

  /** A publish of a path that has no volume state, from any reachable state: it can run through,
      and then the bucket was checked, unless that is skipped, and mounted, in this order; the path
      has a volume state, counted once, and its monitor, if wanted, is live. */
  lemma PublishMounts(env: Env, s: State, t: nat, c: Call) returns (g': Shared)
    requires Reachable(env, s) && t !in s.threads && Admissible(env, s, c)
    requires c.Publish? && c.bucket != "_" && c.target !in s.g.locks && c.target !in s.g.store
    ensures Reachable(env, State(s.threads, g'))
    ensures g'.log == s.g.log + (if c.skipCheck then [] else [Checked(c.target)]) + [FuseMount(c.target, c.bucket, c.skipCheck)]
    ensures g'.locks == s.g.locks && g'.store == s.g.store[c.target := s.g.next] && g'.size == Wrap32(s.g.size + 1)
    ensures Published(s.g, g', c.target, !c.skipCheck, c.monitored)
  {
    IdsReachable(env, s);
    StoresState(env, s, t, c);
    hide Reachable, Wrap32, IdsBelow, Admissible;
    var g := WithState(s.g, c.target);
    g' := ChecksAndMounts(env, s.threads, t, Thread(c, Check, Some(s.g.next)), g);
    IdsFresh(s.g);
    assert s.g.locks + {c.target} - {c.target} == s.g.locks;
  }

  lemma IdsFresh(g: Shared)
    requires IdsBelow(g)
    ensures g.next + 1 !in g.cancelled
  {
  }

  /** The lock is held and a new volume state is stored and counted. */
  function WithState(g: Shared, key: Path): Shared {
    g.(locks := g.locks + {key}, objects := g.objects[g.next := VolumeState(key, false, Fresh, None)], next := g.next + 1,
       store := g.store[key := g.next], size := Wrap32(g.size + 1))
  }

  lemma StoresState(env: Env, s: State, t: nat, c: Call)
    requires Reachable(env, s) && t !in s.threads && Admissible(env, s, c)
    requires c.Publish? && c.bucket != "_" && c.target !in s.g.locks && c.target !in s.g.store
    ensures Reachable(env, State(s.threads[t := Thread(c, Check, Some(s.g.next))], WithState(s.g, c.target)))
  {
    hide Reachable, Wrap32;
    Begins(env, s, t, c);
    var th := Thread(c, Acquire, None);
    var g1 := s.g.(locks := s.g.locks + {c.target});
    Moves(env, s.threads, t, th, s.g, th.(pc := Load), g1);
    var th' := Thread(c, StoreMap, Some(g1.next));
    var g2 := Allocate(g1, c.target);
    Moves(env, s.threads, t, th.(pc := Load), g1, th', g2);
    var g3 := g2.(store := g2.store[c.target := g1.next]);
    Moves(env, s.threads, t, th', g2, th'.(pc := StoreCount), g3);
    Moves(env, s.threads, t, th'.(pc := StoreCount), g3, th'.(pc := Check), g3.(size := Wrap32(g3.size + 1)));
  }

  /** A new volume state, with its monitor running if one is wanted; nothing else is touched. */
  ghost predicate Published(g: Shared, g': Shared, key: Path, checked: bool, monitored: bool) {
    var o := VolumeState(key, checked, if monitored then Done else Fresh, if monitored then Some(g.next + 1) else None);
    && g'.objects == g.objects[g.next := o] && g'.cancelled == g.cancelled
    && g'.monitors == (if monitored then g.monitors[g.next + 1 := g.next] else g.monitors)
    && (monitored ==> Live(g', g.next + 1) && MonitorOf(g', g.next + 1, key))
  }

  /** A publish of a path that has a volume state: a check that passed is not repeated, and a
      monitor that was started is not started again. */
  lemma PublishAgain(env: Env, s: State, t: nat, c: Call) returns (g': Shared)
    requires Reachable(env, s) && t !in s.threads && Admissible(env, s, c)
    requires c.Publish? && c.bucket != "_" && c.target !in s.g.locks
    requires c.target in s.g.store && s.g.store[c.target] in s.g.objects && !s.g.objects[s.g.store[c.target]].once.Busy?
    ensures Reachable(env, State(s.threads, g'))
    ensures var o := s.g.objects[s.g.store[c.target]];
            && g'.log == s.g.log + (if c.skipCheck || o.checked then [] else [Checked(c.target)])
                         + [FuseMount(c.target, c.bucket, c.skipCheck)]
            && (o.once.Done? || !c.monitored ==> g'.monitors == s.g.monitors)
    ensures g'.locks == s.g.locks && g'.store == s.g.store && g'.size == s.g.size && g'.cancelled == s.g.cancelled
  {
    hide Reachable;
    Begins(env, s, t, c);
    var th := Thread(c, Acquire, None);
    var g1 := s.g.(locks := s.g.locks + {c.target});
    Moves(env, s.threads, t, th, s.g, th.(pc := Load), g1);
    var th' := Thread(c, Check, Some(g1.store[c.target]));
    Moves(env, s.threads, t, th.(pc := Load), g1, th', g1);
    g' := ChecksAndMounts(env, s.threads, t, th', g1);
    assert s.g.locks + {c.target} - {c.target} == s.g.locks;
  }

  /** A dynamic mount is mounted without a check, and nothing is kept for it. */
  lemma PublishDynamic(env: Env, s: State, t: nat, c: Call)
    requires Reachable(env, s) && t !in s.threads && Admissible(env, s, c)
    requires c.Publish? && c.bucket == "_" && c.target !in s.g.locks
    ensures Reachable(env, State(s.threads, s.g.(log := s.g.log + [FuseMount(c.target, c.bucket, c.skipCheck)])))
  {
    hide Reachable;
    Begins(env, s, t, c);
    var th := Thread(c, Acquire, None);
    var g1 := s.g.(locks := s.g.locks + {c.target});
    Moves(env, s.threads, t, th, s.g, th.(pc := Check), g1);
    Moves(env, s.threads, t, th.(pc := Check), g1, th.(pc := Middle), g1);
    Moves(env, s.threads, t, th.(pc := Middle), g1, th.(pc := MountIt), g1);
    var g2 := g1.(log := g1.log + [FuseMount(c.target, c.bucket, c.skipCheck)]);
    Moves(env, s.threads, t, th.(pc := MountIt), g1, th.(pc := Monitor), g2);
    Moves(env, s.threads, t, th.(pc := Monitor), g2, th.(pc := Release), g2);
    Returns(env, s.threads, t, th.(pc := Release), g2);
    assert s.g.locks + {c.target} - {c.target} == s.g.locks;
  }

  /** Over every run, a publish that is past its check can mount: one or two steps on, its own mount is
      the last event. */
  lemma CanMount(env: Env, run: seq<State>, i: nat, t: nat) returns (s': State)
    requires Run(env, run) && i < |run| && t in run[i].threads
    requires var th := run[i].threads[t]; th.call.Publish? && (th.pc.Middle? || th.pc.MountIt?)
    ensures var c := run[i].threads[t].call;
            Reachable(env, s') && s'.g == run[i].g.(log := run[i].g.log + [FuseMount(c.target, c.bucket, c.skipCheck)])
  {
    hide Next;
    var s := run[i];
    assert Run(env, run[..i + 1]) && run[..i + 1][i] == s;
    assert Reachable(env, s);
    hide Reachable;
    var th := s.threads[t];
    assert s == State(s.threads[t := th], s.g);
    if th.pc.Middle? {
      Moves(env, s.threads, t, th, s.g, th.(pc := MountIt), s.g);
    }
    var g' := s.g.(log := s.g.log + [FuseMount(th.call.target, th.call.bucket, th.call.skipCheck)]);
    Moves(env, s.threads, t, th.(pc := MountIt), s.g, th.(pc := Monitor), g');
    s' := State(s.threads[t := th.(pc := Monitor)], g');
  }

  /** A shared publish of a staging path without a volume state makes one, counts it and starts its
      monitor, if wanted. */
  lemma SharedPublishStarts(env: Env, s: State, t: nat, c: Call) returns (g': Shared)
    requires Reachable(env, s) && t !in s.threads && Admissible(env, s, c)
    requires c.PublishShared? && c.target !in s.g.locks && c.staging !in s.g.store
    ensures Reachable(env, State(s.threads, g'))
    ensures g'.log == s.g.log && g'.locks == s.g.locks
    ensures g'.store == s.g.store[c.staging := s.g.next] && g'.size == Wrap32(s.g.size + 1)
    ensures Published(s.g, g', c.staging, false, c.monitored)
  {
    IdsReachable(env, s);
    hide Reachable, Wrap32;
    Begins(env, s, t, c);
    var th := Thread(c, Acquire, None);
    var g1 := s.g.(locks := s.g.locks + {c.target});
    Moves(env, s.threads, t, th, s.g, th.(pc := Middle), g1);
    Moves(env, s.threads, t, th.(pc := Middle), g1, th.(pc := Load), g1);
    var th' := Thread(c, StoreCount, Some(g1.next));
    var g2 := Allocate(g1, c.staging).(store := g1.store[c.staging := g1.next]);
    Moves(env, s.threads, t, th.(pc := Load), g1, th', g2);
    var g3 := g2.(size := Wrap32(g2.size + 1));
    Moves(env, s.threads, t, th', g2, th'.(pc := Monitor), g3);
    StartsMonitor(env, s.threads, t, th'.(pc := Monitor), g3);
    var th'' := th'.(pc := Release);
    g' := ReleaseStep(th'', Watched(g3, th'.(pc := Monitor))).g;
    Returns(env, s.threads, t, th'', Watched(g3, th'.(pc := Monitor)));
    assert s.g.locks + {c.target} - {c.target} == s.g.locks;
  }

  // ----- Taking away -----

  /** An unpublish, or an unstage, takes the path's volume state away, if there is one, and cancels its monitor. */
  lemma UnpublishTakesAway(env: Env, s: State, t: nat, c: Call) returns (g': Shared)
    requires Reachable(env, s) && t !in s.threads && Admissible(env, s, c)
    requires (c.Unpublish? || c.Unstage?) && LockOf(c) !in s.g.locks
    requires LockOf(c) in s.g.store ==> s.g.store[LockOf(c)] in s.g.objects
    ensures Reachable(env, State(s.threads, g'))
    ensures g'.log == (if c.Unpublish? then s.g.log + [Unpublished(c.target)] else s.g.log) && g'.locks == s.g.locks
    ensures g'.store == s.g.store - {LockOf(c)} && g'.objects == s.g.objects && g'.monitors == s.g.monitors
    ensures g'.size == if LockOf(c) in s.g.store then Wrap32(s.g.size - 1) else s.g.size
    ensures g'.cancelled == s.g.cancelled + CancelledBy(s.g, LockOf(c))
  {
    hide Reachable, Wrap32;
    var k := LockOf(c);
    Begins(env, s, t, c);
    var th := Thread(c, Acquire, None);
    var g1 := s.g.(locks := s.g.locks + {k});
    Moves(env, s.threads, t, th, s.g, th.(pc := Load), g1);
    assert s.g.locks + {k} - {k} == s.g.locks;
    if k in s.g.store {
      var th' := Thread(c, Cancel, Some(g1.store[k]));
      Moves(env, s.threads, t, th.(pc := Load), g1, th', g1);
      var g2 := g1.(cancelled := g1.cancelled + CancelledBy(s.g, k));
      Moves(env, s.threads, t, th', g1, th'.(pc := DeleteMap), g2);
      var g3 := g2.(store := g2.store - {k});
      Moves(env, s.threads, t, th'.(pc := DeleteMap), g2, th'.(pc := DeleteCount), g3);
      var g4 := g3.(size := Wrap32(g3.size - 1));
      Moves(env, s.threads, t, th'.(pc := DeleteCount), g3, th'.(pc := Cleanup), g4);
      Moves(env, s.threads, t, th'.(pc := Cleanup), g4, th'.(pc := Release), g4);
      g' := ReleaseStep(th'.(pc := Release), g4).g;
      Returns(env, s.threads, t, th'.(pc := Release), g4);
    } else {
      Moves(env, s.threads, t, th.(pc := Load), g1, th.(pc := Cleanup), g1);
      Moves(env, s.threads, t, th.(pc := Cleanup), g1, th.(pc := Release), g1);
      g' := ReleaseStep(th.(pc := Release), g1).g;
      Returns(env, s.threads, t, th.(pc := Release), g1);
      assert s.g.store - {k} == s.g.store;
    }
  }

  /** The monitor that the path's volume state can cancel. */
  function CancelledBy(g: Shared, k: Path): set<nat> {
    if k in g.store && g.store[k] in g.objects && g.objects[g.store[k]].cancel.Some? then {g.objects[g.store[k]].cancel.value} else {}
  }

  /** Publish and unpublish of a path, from any reachable state in which it is unused: the store,
      the counter and the locks are as before, the mount is preceded by its check, and the monitor
      that ran is cancelled. */
  lemma PublishThenUnpublish(env: Env, s: State, t: nat, c: Call) returns (mid: Shared, g': Shared)
    requires Reachable(env, s) && t !in s.threads && Admissible(env, s, c)
    requires c.Publish? && Admissible(env, s, Unpublish(c.target)) && c.bucket != "_" && c.target !in s.g.locks && c.target !in s.g.store
    ensures Reachable(env, State(s.threads, mid)) && Reachable(env, State(s.threads, g'))
    ensures c.monitored ==> Live(mid, s.g.next + 1) && MonitorOf(mid, s.g.next + 1, c.target) && !Live(g', s.g.next + 1)
    ensures g'.store == s.g.store && g'.locks == s.g.locks && g'.size == Wrap32(Wrap32(s.g.size + 1) - 1)
    ensures g'.log == s.g.log + (if c.skipCheck then [] else [Checked(c.target)])
                      + [FuseMount(c.target, c.bucket, c.skipCheck)] + [Unpublished(c.target)]
  {
    mid := PublishMounts(env, s, t, c);
    hide Reachable, Wrap32;
    g' := UnpublishTakesAway(env, State(s.threads, mid), t, Unpublish(c.target));
    assert s.g.store[c.target := s.g.next] - {c.target} == s.g.store;
  }

  /** The same of a shared publish and the unstage of its staging path. */
  lemma SharedPublishThenUnstage(env: Env, s: State, t: nat, c: Call) returns (mid: Shared, g': Shared)
    requires Reachable(env, s) && t !in s.threads && Admissible(env, s, c)
    requires c.PublishShared? && Admissible(env, s, Unstage(c.staging)) && c.target !in s.g.locks && c.staging !in s.g.locks && c.staging !in s.g.store
    ensures Reachable(env, State(s.threads, mid)) && Reachable(env, State(s.threads, g'))
    ensures c.monitored ==> Live(mid, s.g.next + 1) && MonitorOf(mid, s.g.next + 1, c.staging) && !Live(g', s.g.next + 1)
    ensures g'.store == s.g.store && g'.locks == s.g.locks && g'.size == Wrap32(Wrap32(s.g.size + 1) - 1) && g'.log == s.g.log
  {
    mid := SharedPublishStarts(env, s, t, c);
    hide Reachable, Wrap32;
    g' := UnpublishTakesAway(env, State(s.threads, mid), t, Unstage(c.staging));
    assert s.g.store[c.staging := s.g.next] - {c.staging} == s.g.store;
  }
}

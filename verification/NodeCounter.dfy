/** The store's separately updated size counter, in every run of the node server. */
module NodeCounter {
  import opened GoStrings
  import opened NodeLifecycle
  import opened NodeInvariants

  // ----- The counter -----

  /** Calls between their map step and their counter step. */
  function Pending(threads: map<nat, Thread>, pc: Pc): set<nat> {
    set t | t in threads && threads[t].pc == pc
  }

  function Net(s: State): int {
    |s.g.store| - |Pending(s.threads, StoreCount)| + |Pending(s.threads, DeleteCount)|
  }

  predicate CountOk(s: State) {
    s.g.size == Wrap32(Net(s))
  }

  function One(th: Option<Thread>, pc: Pc): int {
    if th.Some? && th.value.pc == pc then 1 else 0
  }

  lemma PendingWith(threads: map<nat, Thread>, t: nat, th: Thread, pc: Pc)
    requires t !in threads
    ensures |Pending(threads[t := th], pc)| == |Pending(threads, pc)| + One(Some(th), pc)
  {
    if th.pc == pc {
      assert Pending(threads[t := th], pc) == Pending(threads, pc) + {t};
    } else {
      assert Pending(threads[t := th], pc) == Pending(threads, pc);
    }
  }

  lemma PendingApply(s: State, t: nat, l: Local, pc: Pc)
    requires t in s.threads
    ensures |Pending(Apply(s, t, l).threads, pc)| == |Pending(s.threads, pc)| - One(Some(s.threads[t]), pc) + One(l.th, pc)
  {
    var rest := s.threads - {t};
    PendingWith(rest, t, s.threads[t], pc);
    assert rest[t := s.threads[t]] == s.threads;
    if l.th.Some? {
      PendingWith(rest, t, l.th.value, pc);
      assert rest[t := l.th.value] == s.threads[t := l.th.value];
    }
  }

  lemma StoreGrows(m: map<Path, nat>, k: Path, v: nat)
    requires k !in m
    ensures |m[k := v]| == |m| + 1
  {
    assert m[k := v].Keys == m.Keys + {k};
  }

  lemma StoreShrinks(m: map<Path, nat>, k: Path)
    requires k in m
    ensures |m - {k}| == |m| - 1
  {
    assert m.Keys == (m - {k}).Keys + {k};
  }

  function Balance(th: Option<Thread>, g: Shared): int {
    |g.store| - One(th, StoreCount) + One(th, DeleteCount)
  }

  function Owed(th: Thread): int {
    if th.pc.StoreCount? then 1 else if th.pc.DeleteCount? then -1 else 0
  }

  predicate Counts(th: Thread, g: Shared, l: Local) {
    && Balance(l.th, l.g) == Balance(Some(th), g) + Owed(th)
    && l.g.size == if Owed(th) == 0 then g.size else Wrap32(g.size + Owed(th))
  }

  lemma CountsLoad(t: nat, th: Thread, g: Shared, l: Local)
    requires th.pc.Load? && l == LoadStep(th, g)
    ensures Counts(th, g, l)
  {
    var k := KeyOf(th.call);
    if k !in g.store { StoreGrows(g.store, k, g.next); }
  }

  lemma CountsStore(th: Thread, g: Shared, l: Local)
    requires th.pc.StoreMap? && th.vs.Some? && KeyOf(th.call) !in g.store
    requires l == At(th, StoreCount, g.(store := g.store[KeyOf(th.call) := th.vs.value]))
    ensures Counts(th, g, l)
  {
    StoreGrows(g.store, KeyOf(th.call), th.vs.value);
  }

  lemma CountsDelete(th: Thread, g: Shared, l: Local)
    requires th.pc.DeleteMap? && KeyOf(th.call) in g.store
    requires l == At(th, DeleteCount, g.(store := g.store - {KeyOf(th.call)}))
    ensures Counts(th, g, l)
  {
    StoreShrinks(g.store, KeyOf(th.call));
  }

  lemma CountsCounter(t: nat, th: Thread, g: Shared, l: Local)
    requires LocalStep(t, th, g, l) && (th.pc.StoreCount? || th.pc.DeleteCount?)
    ensures Counts(th, g, l)
  {
    hide Wrap32;
  }

  lemma CountsOther(t: nat, th: Thread, g: Shared, l: Local)
    requires LocalStep(t, th, g, l) && !(th.pc in {StoreMap, Load, DeleteMap, StoreCount, DeleteCount})
    ensures Counts(th, g, l)
  {
    StepKey(t, th, g, l);
    NoCount(t, th, g, l);
    hide LocalStep, Wrap32;
  }

  lemma NoCount(t: nat, th: Thread, g: Shared, l: Local)
    requires LocalStep(t, th, g, l) && !(th.pc in {StoreMap, Load, DeleteMap, StoreCount, DeleteCount})
    ensures l.g.size == g.size && (l.th.Some? ==> !l.th.value.pc.StoreCount? && !l.th.value.pc.DeleteCount?)
  {
    hide Wrap32;
  }

  /** A step changes the counter by just as much as it changes the net number of entries. */
  lemma StepCounts(env: Env, t: nat, th: Thread, g: Shared, l: Local)
    requires LocalStep(t, th, g, l) && ThreadOk(env, g, th)
    ensures Counts(th, g, l)
  {
    hide Counts;
    if th.pc.Load? {
      CountsLoad(t, th, g, l);
    } else if th.pc.StoreMap? {
      CountsStore(th, g, l);
    } else if th.pc.DeleteMap? {
      CountsDelete(th, g, l);
    } else if th.pc.StoreCount? || th.pc.DeleteCount? {
      CountsCounter(t, th, g, l);
    } else {
      CountsOther(t, th, g, l);
    }
  }

  lemma WrapStep(x: int, d: int)
    ensures Wrap32(Wrap32(x) + d) == Wrap32(x + d)
  {
  }

  lemma CountStep(env: Env, s: State, s': State, t: nat, l: Local)
    requires Base(env, s) && CountOk(s) && ThreadStep(s, s', t, l)
    ensures CountOk(s')
  {
    hide LocalStep, ThreadOk, Wrap32, Pending;
    StepCounts(env, t, s.threads[t], s.g, l);
    PendingApply(s, t, l, StoreCount);
    PendingApply(s, t, l, DeleteCount);
    WrapStep(Net(s), Owed(s.threads[t]));
  }

  lemma CountBegin(env: Env, s: State, s': State, t: nat, c: Call)
    requires CountOk(s) && Begin(env, s, s', t, c)
    ensures CountOk(s')
  {
    assert Pending(s'.threads, StoreCount) == Pending(s.threads, StoreCount);
    assert Pending(s'.threads, DeleteCount) == Pending(s.threads, DeleteCount);
  }

  lemma CountNext(env: Env, s: State, s': State)
    requires Base(env, s) && CountOk(s) && Next(env, s, s')
    ensures CountOk(s')
  {
    hide Base, CountOk, Begin, ThreadStep;
    if t, c :| Begin(env, s, s', t, c) {
      CountBegin(env, s, s', t, c);
    } else if t, l :| ThreadStep(s, s', t, l) {
      CountStep(env, s, s', t, l);
    } else {
      CountRestart(s');
    }
  }

  lemma CountRestart(s: State)
    requires s.threads == map[] && s.g.store == map[] && s.g.size == 0
    ensures CountOk(s)
  {
    assert Pending(s.threads, StoreCount) == {} && Pending(s.threads, DeleteCount) == {};
  }

  lemma {:induction false} CountRun(env: Env, run: seq<State>, i: nat)
    requires env.disjoint && Run(env, run) && i < |run|
    ensures CountOk(run[i])
  {
    if i == 0 {
      CountRestart(run[0]);
    } else {
      CountRun(env, run, i - 1);
      BaseRun(env, run, i - 1);
      assert Next(env, run[i - 1], run[i - 1 + 1]);
      CountNext(env, run[i - 1], run[i]);
    }
  }

  /** Whenever no call is between its map step and its counter step, the 32-bit counter is the
      number of stored entries. */
  lemma CounterIsExact(env: Env, run: seq<State>, i: nat)
    requires env.disjoint && Run(env, run) && i < |run|
    requires forall t :: t in run[i].threads ==> !run[i].threads[t].pc.StoreCount? && !run[i].threads[t].pc.DeleteCount?
    ensures run[i].g.size == Wrap32(|run[i].g.store|)
    ensures |run[i].g.store| < 0x8000_0000 ==> run[i].g.size == |run[i].g.store|
  {
    CountRun(env, run, i);
    assert Pending(run[i].threads, StoreCount) == {} && Pending(run[i].threads, DeleteCount) == {};
  }
}

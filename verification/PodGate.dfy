/** Removing a pod's bucket-scan scheduling gate (pkg/profiles/scanner.go: syncPod,
    removeSchedulingGate). */
module PodGate {
  import opened GoStrings
  import opened ScanWorker

  const GATE := "gke-gcsfuse/bucket-scan-pending"

  /** What the API answered for one volume of the pod, up to the PV's scan state. */
  datatype Answer =
    | NoClaim                                                        // not backed by a PVC
    | ClaimMissing | Unbound | VolumeMissing                         // transient: look again later
    | ApiError                                                       // of PVC, PV, storage class or bucket
    | Irrelevant(pv: string)
    | Relevant(pv: string, override: bool, stray: bool, now: int)

  datatype Outcome = GateRemoved(gates: seq<string>) | NoGate | PodGone | Requeue | SyncFailed

  /** The pod as it is looked up, with the answers for its volumes. */
  datatype Lookup = Pod(answers: seq<Answer>, gates: seq<string>) | NoPod | LookupFailed

  /** What becomes of the patch that removes the gate. */
  datatype GatePatch = Accepted | PodVanished | PatchFailed

  // ----- The gate list -----

  function Others(gates: seq<string>): (r: seq<string>)
    ensures GATE !in r
  {
    if gates == [] then []
    else
      var init := Others(gates[..|gates| - 1]);
      if gates[|gates| - 1] == GATE then init else init + [gates[|gates| - 1]]
  }

  /** Every other gate survives, as often and in the same order as before. */
  lemma {:induction false} OthersSurvive(gates: seq<string>, g: string)
    requires g != GATE
    ensures multiset(Others(gates))[g] == multiset(gates)[g]
  {
    if gates != [] {
      OthersSurvive(gates[..|gates| - 1], g);
      assert gates == gates[..|gates| - 1] + [gates[|gates| - 1]];
    }
  }

  /** Two gates that both survive keep their order. */
  lemma {:induction false} OthersKeepOrder(a: seq<string>, b: seq<string>)
    ensures Others(a + b) == Others(a) + Others(b)
    decreases |b|
  {
    if b == [] {
      assert a + b == a;
    } else {
      OthersKeepOrder(a, b[..|b| - 1]);
      assert (a + b)[..|a + b| - 1] == a + b[..|b| - 1];
    }
  }

  method RemoveSchedulingGate(gates: seq<string>) returns (r: Outcome)
    ensures GATE in gates ==> r == GateRemoved(Others(gates))
    ensures GATE !in gates ==> r == NoGate
  {
    var newGates: seq<string>, gateFound := [], false;
    var i := 0;
    while i < |gates|
      invariant 0 <= i <= |gates|
      invariant newGates == Others(gates[..i]) && (gateFound <==> GATE in gates[..i])
    {
      hide GATE;
      assert gates[..i + 1] == gates[..i] + [gates[i]];
      assert gates[..i + 1][..i] == gates[..i];
      if gates[i] == GATE {
        gateFound := true;
      } else {
        newGates := newGates + [gates[i]];
      }
      i := i + 1;
    }
    assert gates[..i] == gates;
    return if gateFound then GateRemoved(newGates) else NoGate;
  }

  // ----- Readiness of the volumes -----

  /** The volume resolves to an existing bound PV whose scan time, if it needs one, is known. */
  predicate Ready(tracked: map<string, SyncInfo>, a: Answer) {
    match a
    case NoClaim => true
    case Irrelevant(_) => true
    case Relevant(pv, _, _, _) => pv in tracked
    case _ => false
  }

  /** ... or is read from its stored annotation. */
  predicate Knowable(tracked: map<string, SyncInfo>, view: map<string, Annotation>, a: Answer) {
    Ready(tracked, a) || (a.Relevant? && Of(view, a.pv).Stamp?)
  }

  /** The answer is an error: a failed API call, an unreadable scan time, or scan results without
      a time on a PV that is not in override mode. */
  predicate Erroneous(tracked: map<string, SyncInfo>, view: map<string, Annotation>, a: Answer) {
    || a.ApiError?
    || (a.Relevant? && a.pv !in tracked && (Of(view, a.pv).Garbage? || (Of(view, a.pv).Missing? && a.stray && !a.override)))
  }

  /** Memory only gains scan times read from the view. */
  ghost predicate Grown(before: map<string, SyncInfo>, view: map<string, Annotation>, period: int, after: map<string, SyncInfo>) {
    && (forall p :: p in before ==> p in after && after[p] == before[p])
    && (forall p :: p in after && p !in before ==>
          Of(view, p).Stamp? && after[p] == SyncInfo(Of(view, p).t, Of(view, p).t + period))
  }

  lemma GrownTwice(a: map<string, SyncInfo>, view: map<string, Annotation>, period: int, b: map<string, SyncInfo>, c: map<string, SyncInfo>)
    requires Grown(a, view, period, b) && Grown(b, view, period, c)
    ensures Grown(a, view, period, c)
  {
  }

  /** What an answer amounts to does not depend on what was read from the view meanwhile. */
  lemma GrownSame(before: map<string, SyncInfo>, view: map<string, Annotation>, period: int, after: map<string, SyncInfo>, a: Answer)
    requires Grown(before, view, period, after)
    ensures Knowable(after, view, a) <==> Knowable(before, view, a)
    ensures Erroneous(after, view, a) <==> Erroneous(before, view, a)
    ensures Ready(before, a) ==> Ready(after, a)
  {
  }

  /** One turn of the loop over the pod's volumes. */
  method CheckVolume(s: Scanner, a: Answer) returns (ready: bool, failed: bool)
    requires s.Valid()
    modifies s`tracked
    ensures s.Valid() && Grown(old(s.tracked), s.view, s.period, s.tracked)
    ensures failed <==> Erroneous(old(s.tracked), s.view, a)
    ensures !failed ==> (ready <==> Ready(s.tracked, a)) && (ready <==> Knowable(old(s.tracked), s.view, a))
  {
    hide s.Valid;
    match a {
      case NoClaim => return true, false;
      case Irrelevant(_) => return true, false;
      case ApiError => return false, true;
      case Relevant(pv, override, stray, now) =>
        if !override {
          var r := s.CheckPVRelevance(pv, Profiled(stray), now);
          if r == CheckFailed {
            return false, true;
          }
        }
        var last := s.CalculateLastScanTime(pv);
        return last.Known?, last.Unreadable?;
      case _ => return false, false;
    }
  }

  lemma KnownOrigin(s: Scanner, pv: string)
    requires s.Valid() && pv in s.tracked
    ensures s.Origin(pv, s.tracked[pv].lastSuccessfulScan)
  {
  }

  // ----- One pod sync -----

  /** A pod sync: what it was given, memory and the informer's view before it, memory after it,
      and what scans and annotations had been recorded by then. */
  datatype PodSync = PodSync(
    pod: Lookup, patch: GatePatch, outcome: Outcome,
    before: map<string, SyncInfo>, view: map<string, Annotation>, after: map<string, SyncInfo>,
    log: seq<Record>, epoch: nat, stamps: set<(string, int)>)

  ghost predicate AllKnowable(tracked: map<string, SyncInfo>, view: map<string, Annotation>, answers: seq<Answer>) {
    forall i :: 0 <= i < |answers| ==> Knowable(tracked, view, answers[i])
  }

  ghost predicate SomeError(tracked: map<string, SyncInfo>, view: map<string, Annotation>, answers: seq<Answer>) {
    exists i :: 0 <= i < |answers| && Erroneous(tracked, view, answers[i])
  }

  /** Everything is ready for the gate to go: no answer is an error and every volume is knowable. */
  ghost predicate MayGo(p: PodSync) {
    p.pod.Pod? && AllKnowable(p.before, p.view, p.pod.answers)
  }

  /** The scan time came from a successful patch of this process, or from a stored annotation. */
  predicate Sourced(p: PodSync, pv: string) {
    && pv in p.after
    && (Record(pv, p.after[pv].lastSuccessfulScan, p.epoch) in p.log || (pv, p.after[pv].lastSuccessfulScan) in p.stamps)
  }

  /** Exactly when each outcome is returned. The gate goes when the pod is there, the patch is
      accepted and every volume is ready or becomes so by reading its stored annotation. A pod with
      a volume that is not, and no error, is looked at again. */
  ghost predicate OutcomeOk(p: PodSync) {
    && (p.outcome.GateRemoved? <==> MayGo(p) && GATE in p.pod.gates && p.patch == Accepted)
    && (p.outcome.NoGate? <==> MayGo(p) && GATE !in p.pod.gates)
    && (p.outcome.Requeue? <==> p.pod.Pod? && !MayGo(p) && !SomeError(p.before, p.view, p.pod.answers))
    && (p.outcome.PodGone? <==> p.pod.NoPod? || (MayGo(p) && GATE in p.pod.gates && p.patch == PodVanished))
    && (p.outcome.SyncFailed? <==>
          || p.pod.LookupFailed? || (p.pod.Pod? && SomeError(p.before, p.view, p.pod.answers))
          || (MayGo(p) && GATE in p.pod.gates && p.patch == PatchFailed))
  }

  /** What the gate's going means: all other gates stay, every claim is bound to an existing PV,
      and each relevant PV has a scan time of known origin. */
  ghost predicate GateSafe(p: PodSync) {
    && OutcomeOk(p)
    && (p.outcome.GateRemoved? ==>
          && p.outcome.gates == Others(p.pod.gates)
          && forall i :: 0 <= i < |p.pod.answers| ==>
               var a := p.pod.answers[i]; a.NoClaim? || a.Irrelevant? || (a.Relevant? && Sourced(p, a.pv)))
  }

  method SyncPod(s: Scanner, pod: Lookup, patch: GatePatch) returns (r: Outcome, ghost p: PodSync)
    requires s.Valid()
    modifies s`tracked
    ensures s.Valid() && Grown(old(s.tracked), s.view, s.period, s.tracked)
    ensures p == PodSync(pod, patch, r, old(s.tracked), s.view, s.tracked, s.log, s.epoch, s.stamps) && GateSafe(p)
  {
    hide s.Valid, s.Origin, Others, GATE, AllKnowable, SomeError, Erroneous, Knowable, Grown;
    Unchanged(s);
    var allReady := pod.Pod?;
    if pod.Pod? {
      var failed;
      allReady, failed := CheckVolumes(s, pod.answers);
      if failed {
        r := SyncFailed;
      } else if !allReady {
        r := Requeue;
      } else {
        r := RemoveSchedulingGate(pod.gates);
        if r.GateRemoved? && patch != Accepted {
          r := if patch == PodVanished then PodGone else SyncFailed;
        }
      }
    } else {
      r := if pod.NoPod? then PodGone else SyncFailed;
    }
    p := PodSync(pod, patch, r, old(s.tracked), s.view, s.tracked, s.log, s.epoch, s.stamps);
    if pod.Pod? {
      ErrorNotKnowable(p.before, p.view, pod.answers);
    }
    if r.GateRemoved? {
      forall i | 0 <= i < |pod.answers|
        ensures var a := pod.answers[i]; a.NoClaim? || a.Irrelevant? || (a.Relevant? && Sourced(p, a.pv))
      {
        assert Ready(s.tracked, pod.answers[i]);
        if pod.answers[i].Relevant? { OriginIsSource(s, p, pod.answers[i].pv); }
      }
    }
  }

  lemma Unchanged(s: Scanner)
    ensures Grown(s.tracked, s.view, s.period, s.tracked)
  {
  }

  lemma ErrorNotKnowable(tracked: map<string, SyncInfo>, view: map<string, Annotation>, answers: seq<Answer>)
    ensures SomeError(tracked, view, answers) ==> !AllKnowable(tracked, view, answers)
  {
  }

  lemma OriginIsSource(s: Scanner, p: PodSync, pv: string)
    requires pv in s.tracked && s.Origin(pv, s.tracked[pv].lastSuccessfulScan)
    requires p.after == s.tracked && p.log == s.log && p.epoch == s.epoch && p.stamps == s.stamps
    ensures Sourced(p, pv)
  {
  }

  /** The loop over the pod's volumes. */
  method CheckVolumes(s: Scanner, answers: seq<Answer>) returns (allReady: bool, failed: bool)
    requires s.Valid()
    modifies s`tracked
    ensures s.Valid() && Grown(old(s.tracked), s.view, s.period, s.tracked)
    ensures failed <==> SomeError(old(s.tracked), s.view, answers)
    ensures !failed ==> (allReady <==> AllKnowable(old(s.tracked), s.view, answers))
    ensures !failed && allReady ==> forall i :: 0 <= i < |answers| ==>
              Ready(s.tracked, answers[i]) && (answers[i].Relevant? ==> s.Origin(answers[i].pv, s.tracked[answers[i].pv].lastSuccessfulScan))
  {
    Unchanged(s);
    hide s.Valid, s.Origin, Grown, Erroneous, Knowable, Ready;
    allReady, failed := true, false;
    var i := 0;
    while i < |answers|
      invariant 0 <= i <= |answers| && !failed
      invariant s.Valid() && Grown(old(s.tracked), s.view, s.period, s.tracked)
      invariant forall k :: 0 <= k < i ==> !Erroneous(old(s.tracked), s.view, answers[k])
      invariant allReady <==> forall k :: 0 <= k < i ==> Knowable(old(s.tracked), s.view, answers[k])
      invariant allReady ==> forall k :: 0 <= k < i ==> Ready(s.tracked, answers[k])
    {
      GrownSame(old(s.tracked), s.view, s.period, s.tracked, answers[i]);
      ghost var mid := s.tracked;
      var ready;
      ready, failed := CheckVolume(s, answers[i]);
      GrownTwice(old(s.tracked), s.view, s.period, mid, s.tracked);
      StillReady(mid, s.view, s.period, s.tracked, answers[..i]);
      if failed {
        return;
      }
      allReady := allReady && ready;
      i := i + 1;
    }
    if allReady { KnownOrigins(s, answers); }
  }

  lemma KnownOrigins(s: Scanner, answers: seq<Answer>)
    requires s.Valid() && forall i :: 0 <= i < |answers| ==> Ready(s.tracked, answers[i])
    ensures forall i :: 0 <= i < |answers| && answers[i].Relevant? ==>
              answers[i].pv in s.tracked && s.Origin(answers[i].pv, s.tracked[answers[i].pv].lastSuccessfulScan)
  {
    hide s.Valid, s.Origin;
    forall i | 0 <= i < |answers| && answers[i].Relevant?
      ensures answers[i].pv in s.tracked && s.Origin(answers[i].pv, s.tracked[answers[i].pv].lastSuccessfulScan)
    {
      assert Ready(s.tracked, answers[i]);
      KnownOrigin(s, answers[i].pv);
    }
  }

  lemma StillReady(before: map<string, SyncInfo>, view: map<string, Annotation>, period: int, after: map<string, SyncInfo>, answers: seq<Answer>)
    requires Grown(before, view, period, after)
    ensures forall k :: 0 <= k < |answers| && Ready(before, answers[k]) ==> Ready(after, answers[k])
  {
  }

  // ----- Runs of the worker -----

  /** What the single worker, the informer and the process do. */
  datatype Event =
    | SyncPv(pv: string, facts: Facts, checkTime: int, scanned: bool, recordTime: int, outcome: PatchOutcome)
    | SyncPodEvent(pod: Lookup, patch: GatePatch)
    | Restarted
    | Refreshed(pv: string)

  /** Clock readings do not decrease from `now` on. */
  predicate Timely(events: seq<Event>, now: int) {
    events == [] ||
    match events[0]
    case SyncPv(_, _, check, _, record, _) => now <= check <= record && Timely(events[1..], record)
    case _ => Timely(events[1..], now)
  }

  lemma {:induction false} TimelyEarlier(events: seq<Event>, now: int, earlier: int)
    requires Timely(events, now) && earlier <= now
    ensures Timely(events, earlier)
    decreases |events|
  {
    if events != [] && !events[0].SyncPv? { TimelyEarlier(events[1..], now, earlier); }
  }

  /** One event of a run: what was known and recorded before and after it, and the description of
      the pod sync if it was one. */
  datatype Step = Step(event: Event, before: Snapshot, after: Snapshot, sync: Option<PodSync>)

  ghost predicate PodStep(x: Step, period: int)
    requires x.event.SyncPodEvent? && x.sync.Some?
  {
    var p := x.sync.value;
    && p == PodSync(x.event.pod, x.event.patch, p.outcome, x.before.tracked, x.before.view, x.after.tracked,
                    x.before.log, x.before.epoch, x.before.stamps)
    && GateSafe(p) && Grown(x.before.tracked, x.before.view, period, x.after.tracked)
    && x.after == x.before.(tracked := x.after.tracked)
  }

  /** What each kind of event does, in full. */
  ghost predicate StepOk(x: Step, period: int) {
    && (x.sync.Some? <==> x.event.SyncPodEvent?)
    && match x.event
       case SyncPv(pv, facts, check, scanned, record, outcome) =>
         Synced(x.before, x.after, period, pv, facts, check, scanned, record, outcome)
       case SyncPodEvent(_, _) => PodStep(x, period)
       case Restarted => x.after == x.before.(tracked := map[], view := x.before.stored, epoch := x.before.epoch + 1)
       case Refreshed(pv) =>
         && x.after == x.before.(view := x.after.view) && Of(x.after.view, pv) == Of(x.before.stored, pv)
         && forall p :: p != pv ==> Of(x.after.view, p) == Of(x.before.view, p)
  }

  function Latest(start: Snapshot, steps: seq<Step>): Snapshot {
    if steps == [] then start else steps[|steps| - 1].after
  }

  /** The steps are those of the events, one after another from `start`. */
  ghost predicate History(steps: seq<Step>, events: seq<Event>, start: Snapshot, period: int) {
    && |steps| == |events|
    && forall i :: 0 <= i < |steps| ==>
         steps[i].event == events[i] && StepOk(steps[i], period) && steps[i].before == Latest(start, steps[..i])
  }

  lemma HistorySnoc(steps: seq<Step>, events: seq<Event>, start: Snapshot, period: int, x: Step)
    requires History(steps, events, start, period) && StepOk(x, period) && x.before == Latest(start, steps)
    ensures History(steps + [x], events + [x.event], start, period) && Latest(start, steps + [x]) == x.after
  {
    hide StepOk;
    var steps' := steps + [x];
    forall i | 0 <= i < |steps'|
      ensures steps'[i].event == (events + [x.event])[i] && StepOk(steps'[i], period) && steps'[i].before == Latest(start, steps'[..i])
    {
      assert steps'[..i] == steps[..i];
      assert i == |steps| ==> steps[..i] == steps;
    }
  }

  /** The outcome reported for each event: of a pod sync, what it returned. */
  ghost predicate Reported(steps: seq<Step>, outcomes: seq<Option<Outcome>>) {
    |outcomes| == |steps| &&
    forall i :: 0 <= i < |steps| ==> outcomes[i] == if steps[i].sync.Some? then Some(steps[i].sync.value.outcome) else None
  }

  /** One event. */
  method Handle(s: Scanner, e: Event) returns (r: Option<Outcome>, ghost x: Step)
    requires s.Valid() && (e.SyncPv? ==> s.clock <= e.checkTime <= e.recordTime)
    modifies s
    ensures s.Valid()
    ensures if e.SyncPv? then s.clock <= e.recordTime else s.clock == old(s.clock)
    ensures x.event == e && x.before == old(s.Now()) && x.after == s.Now() && StepOk(x, s.period)
    ensures r == if x.sync.Some? then Some(x.sync.value.outcome) else None
  {
    hide s.Valid, GateSafe, Synced, Grown;
    ghost var before := s.Now();
    ghost var sync: Option<PodSync> := None;
    r := None;
    match e {
      case SyncPv(pv, facts, check, scanned, record, outcome) =>
        s.SyncPV(pv, facts, check, scanned, record, outcome);
      case SyncPodEvent(pod, patch) =>
        var outcome;
        ghost var p;
        outcome, p := SyncPod(s, pod, patch);
        r, sync := Some(outcome), Some(p);
      case Restarted =>
        s.Restart();
      case Refreshed(pv) =>
        s.Refresh(pv);
    }
    x := Step(e, before, s.Now(), sync);
  }

  ghost function Beginning(stored: map<string, Annotation>): Snapshot {
    Snapshot(map[], stored, stored, [], 0, set p | p in stored && stored[p].Stamp? :: (p, stored[p].t))
  }

  /** In every run of PV syncs, pod syncs, restarts and informer updates, in whatever order,
      every event does exactly what it should, the successful scans are spaced and every pod sync
      is safe. */
  method RunWorker(period: int, stored: map<string, Annotation>, events: seq<Event>)
    returns (s: Scanner, outcomes: seq<Option<Outcome>>, ghost steps: seq<Step>)
    requires period > 0 && Timely(events, 0)
    ensures fresh(s) && s.Valid() && s.period == period && Spaced(s.log, period)
    ensures History(steps, events, Beginning(stored), period) && s.Now() == Latest(Beginning(stored), steps)
    ensures Reported(steps, outcomes)
  {
    s := new Scanner(period, stored);
    outcomes, steps := [], [];
    ghost var start := Beginning(stored);
    hide s.Valid, StepOk, Spaced, History, Timely, Beginning;
    NoEvents(events, start, period);
    var i := 0;
    while i < |events|
      invariant 0 <= i <= |events|
      invariant fresh(s) && s.Valid() && Timely(events[i..], s.clock)
      invariant History(steps, events[..i], start, period) && s.Now() == Latest(start, steps)
      invariant Reported(steps, outcomes)
    {
      TimelyStep(events, i, s.clock);
      var e := events[i];
      var r;
      ghost var x;
      r, x := Handle(s, e);
      HistorySnoc(steps, events[..i], start, period, x);
      assert events[..i + 1] == events[..i] + [e];
      outcomes, steps := outcomes + [r], steps + [x];
      if e.SyncPv? { TimelyEarlier(events[i + 1..], e.recordTime, s.clock); }
      i := i + 1;
    }
    assert events[..i] == events;
    SpacedWhenValid(s);
  }

  lemma NoEvents(events: seq<Event>, start: Snapshot, period: int)
    ensures History([], events[..0], start, period) && events[0..] == events
  {
  }

  lemma TimelyStep(events: seq<Event>, i: nat, now: int)
    requires i < |events| && Timely(events[i..], now)
    ensures var e := events[i];
            if e.SyncPv? then now <= e.checkTime <= e.recordTime && Timely(events[i + 1..], e.recordTime)
            else Timely(events[i + 1..], now)
  {
    assert events[i..][0] == events[i] && events[i..][1..] == events[i + 1..];
  }

  lemma SpacedWhenValid(s: Scanner)
    requires s.Valid()
    ensures Spaced(s.log, s.period)
  {
  }
}

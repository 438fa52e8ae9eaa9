/** The profile scanner's single worker: PV scans spaced by the resync period, and the pod
    scheduling gate that waits for them (pkg/profiles/scanner.go).

    Times are nanoseconds. The resync period is fixed and valid, PVs are not deleted, and only
    the scanner writes its annotations after the start. API answers and clock readings are
    parameters. */
module ScanWorker {
  const SECOND := 1_000_000_000

  /** RFC 3339 keeps whole seconds. */
  function WholeSeconds(t: int): (s: int)
    ensures s % SECOND == 0 && s <= t < s + SECOND
  {
    assert (t - t % SECOND) == t / SECOND * SECOND;
    Whole(t / SECOND);
    t - t % SECOND
  }

  lemma Whole(k: int)
    ensures k * SECOND % SECOND == 0
  {
  }

  datatype SyncInfo = SyncInfo(lastSuccessfulScan: int, nextScan: int)

  /** The last-updated annotation of a PV. */
  datatype Annotation = Missing | Stamp(t: int) | Garbage

  function Of(m: map<string, Annotation>, pv: string): Annotation {
    if pv in m then m[pv] else Missing
  }

  /** A scan whose patch was reported successful; `epoch` counts restarts. */
  datatype Record = Record(pv: string, time: int, epoch: nat)

  /** Memory after the scan time of `pv` was looked up: an unknown one is read from the view. */
  function Remembered(tracked: map<string, SyncInfo>, view: map<string, Annotation>, pv: string, period: int): map<string, SyncInfo> {
    if pv !in tracked && Of(view, pv).Stamp? then tracked[pv := SyncInfo(Of(view, pv).t, Of(view, pv).t + period)] else tracked
  }

  // ----- Spacing -----

  /** The least distance of a later scan, recorded in epoch `e`, from `r`. */
  function Gap(r: Record, e: nat, period: int): int {
    if r.epoch == e then period else period - SECOND + 1
  }

  ghost predicate Spaced(log: seq<Record>, period: int) {
    forall i, j :: 0 <= i < j < |log| && log[i].pv == log[j].pv ==> log[j].time - log[i].time >= Gap(log[i], log[j].epoch, period)
  }

  /** Two scans of a PV: a period apart, across a restart less than a second weaker. */
  lemma SpacedMeans(log: seq<Record>, period: int, i: nat, j: nat)
    requires Spaced(log, period) && i < j < |log| && log[i].pv == log[j].pv
    ensures log[j].time - log[i].time > period - 1_000_000_000
    ensures log[i].epoch == log[j].epoch ==> log[j].time - log[i].time >= period
  {
  }

  /** What a known scan time must be at least, given an earlier record. */
  function Floor(r: Record, e: nat): int {
    if r.epoch == e then r.time else WholeSeconds(r.time)
  }

  ghost predicate Covers(log: seq<Record>, e: nat, pv: string, t: int) {
    forall i :: 0 <= i < |log| && log[i].pv == pv ==> t >= Floor(log[i], e)
  }

  lemma GapFromFloor(r: Record, e: nat, last: int, now: int, period: int)
    requires last >= Floor(r, e) && now - last >= period
    ensures now - r.time >= Gap(r, e, period)
  {
  }

  /** A scan at least one period after a covering scan time keeps the log spaced. */
  lemma SpacedSnoc(log: seq<Record>, pv: string, e: nat, last: int, now: int, period: int)
    requires Spaced(log, period) && Covers(log, e, pv, last) && now - last >= period
    ensures Spaced(log + [Record(pv, now, e)], period)
  {
    var log' := log + [Record(pv, now, e)];
    forall i, j | 0 <= i < j < |log'| && log'[i].pv == log'[j].pv
      ensures log'[j].time - log'[i].time >= Gap(log'[i], log'[j].epoch, period)
    {
      if j == |log| { GapFromFloor(log[i], e, last, now, period); }
    }
  }

  // ----- The scanner and the part of the cluster it reads and writes -----

  datatype LastScan = Known(t: int) | Never | Unreadable

  /** What the API says about a PV before its scan time matters: not a profile's PV, a failed
      call, or a PV to judge; `stray`: it carries scan results without a time. */
  datatype Facts = Irrelevant | ApiFailed | Profiled(stray: bool)

  datatype Relevance = NotRelevant | UpToDate | ScanPending | CheckFailed

  datatype PatchOutcome = Patched | Rejected | LostReply  // LostReply: applied, reported as failed

  /** A profiled PV is scanned once a period has passed since its last known scan; one without a
      scan time is scanned at once, unless it carries results or an unreadable time. */
  predicate PendingAt(tracked: map<string, SyncInfo>, view: map<string, Annotation>, period: int, pv: string, facts: Facts, now: int) {
    facts.Profiled? &&
    if pv in tracked then now - tracked[pv].lastSuccessfulScan >= period
    else
      match Of(view, pv)
      case Missing => !facts.stray
      case Stamp(t) => now - t >= period
      case Garbage => false
  }

  /** The scanner's memory, the cluster's annotations, and what has been recorded. */
  datatype Snapshot = Snapshot(
    tracked: map<string, SyncInfo>, stored: map<string, Annotation>, view: map<string, Annotation>,
    log: seq<Record>, epoch: nat, stamps: set<(string, int)>)

  class Scanner {
    const period: int
    var tracked: map<string, SyncInfo>
    var stored: map<string, Annotation>  // in the API server
    var view: map<string, Annotation>    // in the informer's cache
    ghost var log: seq<Record>
    ghost var epoch: nat
    ghost var clock: int
    ghost var stamps: set<(string, int)> // every time ever stored as an annotation

    ghost function Now(): Snapshot
      reads this
    {
      Snapshot(tracked, stored, view, log, epoch, stamps)
    }

    /** In-memory times are never behind the recorded scans, and nextScan is one period on. */
    ghost predicate TrackedOk()
      reads this
    {
      forall p :: p in tracked ==>
        && tracked[p].nextScan == tracked[p].lastSuccessfulScan + period
        && Covers(log, epoch, p, tracked[p].lastSuccessfulScan)
    }

    /** A PV unknown in memory has no scan of this epoch, and its annotation covers the others. */
    ghost predicate UntrackedOk()
      reads this
    {
      forall i :: 0 <= i < |log| && log[i].pv !in tracked ==> log[i].epoch != epoch
    }

    ghost predicate StoredOk()
      reads this
    {
      forall i :: 0 <= i < |log| ==>
        && Of(stored, log[i].pv).Stamp? && Of(stored, log[i].pv).t >= WholeSeconds(log[i].time)
        && (log[i].epoch != epoch ==> Of(view, log[i].pv).Stamp? && Of(view, log[i].pv).t >= WholeSeconds(log[i].time))
    }

    ghost predicate ClockOk()
      reads this
    {
      forall i :: 0 <= i < |log| ==> log[i].time <= clock && log[i].epoch <= epoch
    }

    /** Every known scan time was a successful patch or a stored annotation. */
    ghost predicate Provenance()
      reads this
    {
      && (forall p :: p in tracked ==> Origin(p, tracked[p].lastSuccessfulScan))
      && (forall p :: p in stored && stored[p].Stamp? ==> (p, stored[p].t) in stamps)
      && (forall p :: p in view && view[p].Stamp? ==> (p, view[p].t) in stamps)
    }

    ghost predicate Origin(p: string, t: int)
      reads this
    {
      Record(p, t, epoch) in log || (p, t) in stamps
    }

    ghost predicate Valid()
      reads this
    {
      period > 0 && Spaced(log, period) && TrackedOk() && UntrackedOk() && StoredOk() && ClockOk() && Provenance()
    }

    constructor (period: int, stored: map<string, Annotation>)
      requires period > 0
      ensures Valid() && this.period == period && clock == 0
      ensures Now() == Snapshot(map[], stored, stored, [], 0, set p | p in stored && stored[p].Stamp? :: (p, stored[p].t))
    {
      this.period, this.tracked, this.stored, this.view := period, map[], stored, stored;
      this.log, this.epoch, this.clock := [], 0, 0;
      this.stamps := set p | p in stored && stored[p].Stamp? :: (p, stored[p].t);
    }

    /** The process restarts: memory is lost, the informer lists afresh. */
    method Restart()
      requires Valid()
      modifies this
      ensures Valid() && clock == old(clock)
      ensures Now() == old(Now()).(tracked := map[], view := stored, epoch := old(epoch) + 1)
    {
      tracked, view, epoch := map[], stored, epoch + 1;
    }

    /** The informer catches up with the API server. */
    method Refresh(pv: string)
      requires Valid()
      modifies this`view
      ensures Valid() && Of(view, pv) == Of(stored, pv)
      ensures forall p :: p != pv ==> Of(view, p) == old(Of(view, p))
    {
      if pv in stored {
        view := view[pv := stored[pv]];
      } else {
        view := view - {pv};
      }
    }

    ghost predicate Due(pv: string, now: int)
      reads this
    {
      Covers(log, epoch, pv, now - period)
    }

    method UpdateLastSuccessfulScanInMemory(pv: string, t: int)
      requires Valid() && Covers(log, epoch, pv, t) && Origin(pv, t)
      modifies this`tracked
      ensures Valid() && tracked == old(tracked)[pv := SyncInfo(t, t + period)]
    {
      tracked := tracked[pv := SyncInfo(t, t + period)];
    }

    /** Memory first, then the annotation, which is then remembered. */
    method CalculateLastScanTime(pv: string) returns (r: LastScan)
      requires Valid()
      modifies this`tracked
      ensures Valid()
      ensures r.Known? <==> pv in old(tracked) || Of(view, pv).Stamp?
      ensures r.Unreadable? <==> pv !in old(tracked) && Of(view, pv) == Garbage
      ensures tracked == Remembered(old(tracked), view, pv, period)
      ensures r.Known? ==> pv in tracked && tracked[pv].lastSuccessfulScan == r.t
    {
      if pv in tracked {
        return Known(tracked[pv].lastSuccessfulScan);
      }
      match Of(view, pv) {
        case Missing => return Never;
        case Garbage => return Unreadable;
        case Stamp(t) =>
          UpdateLastSuccessfulScanInMemory(pv, t);
          return Known(t);
      }
    }

    /** Without override mode: whether the PV is relevant, and whether a scan is pending. */
    method CheckPVRelevance(pv: string, facts: Facts, now: int) returns (r: Relevance)
      requires Valid()
      modifies this`tracked
      ensures Valid()
      ensures r == NotRelevant <==> facts.Irrelevant?
      ensures r == ScanPending ==> Due(pv, now)
      ensures r == ScanPending <==> PendingAt(old(tracked), view, period, pv, facts, now)
      ensures r == UpToDate ==> pv in tracked && now - tracked[pv].lastSuccessfulScan < period
      ensures r == CheckFailed <==> facts.ApiFailed? || (facts.Profiled? && pv !in tracked && (Of(view, pv) == Garbage || facts.stray))
      ensures tracked == if facts.Profiled? then Remembered(old(tracked), view, pv, period) else old(tracked)
    {
      match facts {
        case Irrelevant => return NotRelevant;
        case ApiFailed => return CheckFailed;
        case Profiled(stray) =>
          var last := CalculateLastScanTime(pv);
          match last {
            case Unreadable => return CheckFailed;
            case Never => return if stray then CheckFailed else ScanPending;
            case Known(t) => return if now - t < period then UpToDate else ScanPending;
          }
      }
    }

    /** The annotations are patched; only a reported success reaches memory. */
    method UpdatePVScanResult(pv: string, now: int, outcome: PatchOutcome) returns (ok: bool)
      requires Valid() && Due(pv, now) && clock <= now
      modifies this
      ensures Valid() && clock == now && epoch == old(epoch) && old(stamps) <= stamps && view == old(view)
      ensures ok <==> outcome == Patched
      ensures stored == if outcome == Rejected then old(stored) else old(stored)[pv := Stamp(WholeSeconds(now))]
      ensures log == if ok then old(log) + [Record(pv, now, epoch)] else old(log)
      ensures ok ==> tracked == old(tracked)[pv := SyncInfo(now, now + period)]
      ensures !ok ==> tracked == old(tracked)
    {
      clock := now;
      if outcome != Rejected {
        Store(pv, WholeSeconds(now));
      }
      ok := outcome == Patched;
      if ok {
        RecordScan(pv, now);
      }
    }

    /** A later time is written to the PV's annotation. */
    method Store(pv: string, t: int)
      requires Valid() && t == WholeSeconds(clock)
      modifies this`stored, this`stamps
      ensures Valid() && stored == old(stored)[pv := Stamp(t)] && stamps == old(stamps) + {(pv, t)}
    {
      forall i | 0 <= i < |log|
        ensures WholeSeconds(log[i].time) <= t
      {
        WholeSecondsMonotone(log[i].time, clock);
      }
      stored := stored[pv := Stamp(t)];
      stamps := stamps + {(pv, t)};
    }

    method RecordScan(pv: string, now: int)
      requires Valid() && Due(pv, now) && clock == now && Of(stored, pv) == Stamp(WholeSeconds(now))
      modifies this`tracked, this`log
      ensures Valid() && log == old(log) + [Record(pv, now, epoch)]
      ensures tracked == old(tracked)[pv := SyncInfo(now, now + period)]
    {
      SpacedSnoc(log, pv, epoch, now - period, now, period);
      hide Spaced;
      log := log + [Record(pv, now, epoch)];
      tracked := tracked[pv := SyncInfo(now, now + period)];
    }

    /** The scan part of syncPV. A recorded scan leaves the whole log spaced. */
    method SyncPV(pv: string, facts: Facts, checkTime: int, scanned: bool, recordTime: int, outcome: PatchOutcome)
      requires Valid() && clock <= checkTime <= recordTime
      modifies this
      ensures Valid() && old(clock) <= clock <= recordTime
      ensures Synced(old(Now()), Now(), period, pv, facts, checkTime, scanned, recordTime, outcome)
    {
      var r := CheckPVRelevance(pv, facts, checkTime);
      if r != ScanPending || !scanned {
        return;
      }
      assert Due(pv, recordTime);
      var _ := UpdatePVScanResult(pv, recordTime, outcome);
    }

    /** The ticker enqueues exactly the tracked PVs that the relevance check would scan now. */
    method EnqueueTrackedPVs(now: int) returns (queue: set<string>)
      requires Valid()
      ensures forall p :: p in queue <==> p in tracked && now - tracked[p].lastSuccessfulScan >= period
      ensures forall p, stray :: p in queue <==> p in tracked && PendingAt(tracked, view, period, p, Profiled(stray), now)
    {
      queue := {};
      var rest := tracked.Keys;
      while rest != {}
        invariant rest <= tracked.Keys
        invariant forall p :: p in queue <==> p in tracked && p !in rest && tracked[p].nextScan <= now
        decreases |rest|
      {
        var p :| p in rest;
        if tracked[p].nextScan <= now {
          queue := queue + {p};
        }
        rest := rest - {p};
      }
    }
  }

  /** A PV sync scans exactly when one is pending. A patch that reached the API server leaves its
      whole second in the annotation; only a reported success is recorded and remembered. */
  ghost predicate Synced(before: Snapshot, after: Snapshot, period: int, pv: string, facts: Facts, checkTime: int,
                         scanned: bool, recordTime: int, outcome: PatchOutcome)
  {
    var wrote := PendingAt(before.tracked, before.view, period, pv, facts, checkTime) && scanned && outcome != Rejected;
    var recorded := wrote && outcome == Patched;
    var known := if facts.Profiled? then Remembered(before.tracked, before.view, pv, period) else before.tracked;
    && after.log == (if recorded then before.log + [Record(pv, recordTime, before.epoch)] else before.log)
    && after.tracked == (if recorded then known[pv := SyncInfo(recordTime, recordTime + period)] else known)
    && after.stored == (if wrote then before.stored[pv := Stamp(WholeSeconds(recordTime))] else before.stored)
    && after.view == before.view && after.epoch == before.epoch && before.stamps <= after.stamps
  }

  lemma WholeSecondsMonotone(a: int, b: int)
    requires a <= b
    ensures WholeSeconds(a) <= WholeSeconds(b)
  {
    assert a / SECOND <= b / SECOND;
    assert WholeSeconds(a) == a / SECOND * SECOND && WholeSeconds(b) == b / SECOND * SECOND;
  }
}

/** The sidecar's readiness protocol: gcsfuse reports mount statuses on a pipe, a watcher
    turns the first success into a ready file, and the goroutine that started gcsfuse removes
    the file once gcsfuse has exited (pkg/sidecar_mounter/sidecar_mounter.go:146-172 and
    312-319, pkg/sidecar_mounter/startup_probe.go:53-117). Every interleaving of the three is
    a run of `Next`. */
module Readiness {
  import opened GoStrings

  /** A message on the status pipe: success, a retried failure, or undecodable bytes. */
  datatype Message = Mounted | Retrying | Garbage

  // ----- Reading the pipe -----

  datatype Outcome = ReportedOk | NoOutcome | DecodeError

  /** What a reader that sees `msgs` and then end of file concludes. */
  function OutcomeOf(msgs: seq<Message>): Outcome {
    if msgs == [] then NoOutcome
    else match msgs[0]
      case Mounted => ReportedOk
      case Garbage => DecodeError
      case Retrying => OutcomeOf(msgs[1..])
  }

  ghost predicate FirstNotRetrying(msgs: seq<Message>, i: int) {
    0 <= i < |msgs| && !msgs[i].Retrying? && forall j :: 0 <= j < i ==> msgs[j].Retrying?
  }

  /** Decodes messages until a success, an undecodable one, or end of file. */
  method ReadMountOutcome(pipe: seq<Message>) returns (r: Outcome, consumed: nat)
    ensures consumed <= |pipe|
    ensures r == OutcomeOf(pipe)
    ensures r.ReportedOk? <==> exists i :: FirstNotRetrying(pipe, i) && pipe[i].Mounted?
    ensures r.DecodeError? <==> exists i :: FirstNotRetrying(pipe, i) && pipe[i].Garbage?
    ensures r.NoOutcome? <==> forall i :: 0 <= i < |pipe| ==> pipe[i].Retrying?
    ensures if r.NoOutcome? then consumed == |pipe| else FirstNotRetrying(pipe, consumed - 1)
  {
    consumed := 0;
    while consumed < |pipe|
      invariant consumed <= |pipe|
      invariant forall j :: 0 <= j < consumed ==> pipe[j].Retrying?
      invariant OutcomeOf(pipe) == OutcomeOf(pipe[consumed..])
    {
      var msg := pipe[consumed];
      assert pipe[consumed..][1..] == pipe[consumed + 1..];
      consumed := consumed + 1;
      if !msg.Retrying? {
        assert FirstNotRetrying(pipe, consumed - 1);
        return if msg.Mounted? then ReportedOk else DecodeError, consumed;
      }
    }
    r := NoOutcome;
  }

  lemma {:induction false} OutcomeSnoc(msgs: seq<Message>, m: Message)
    requires OutcomeOf(msgs).NoOutcome?
    ensures OutcomeOf(msgs + [m]) == OutcomeOf([m])
    decreases |msgs|
  {
    if msgs != [] {
      OutcomeSnoc(msgs[1..], m);
      assert (msgs + [m])[1..] == msgs[1..] + [m];
    } else {
      assert msgs + [m] == [m];
    }
  }

  lemma {:induction false} OutcomeDecided(msgs: seq<Message>, more: seq<Message>)
    requires !OutcomeOf(msgs).NoOutcome?
    ensures OutcomeOf(msgs + more) == OutcomeOf(msgs)
    decreases |msgs|
  {
    assert (msgs + more)[1..] == msgs[1..] + more;
    if msgs[0].Retrying? {
      OutcomeDecided(msgs[1..], more);
    }
  }

  // ----- The protocol -----

  /** The goroutine that starts gcsfuse and waits for it. */
  datatype Waiter =
    | Starting
    | CloseWriteEnd(started: bool)
    | CloseReadEnd
    | SpawnWatcher
    | WaitExit
    | WaitOutcome
    | RemoveReady
    | Returned

  datatype Watcher = Unborn | Reading | WriteReady | CloseReader | CloseOutcome | Finished

  datatype Process = Unstarted | Running | Exited

  /** `tempDirSet` is false when the mount has no volume directory; `writeWorks` and
      `removalWorks` tell whether the ready file can be written and removed; `capacity` bounds
      the pipe. */
  datatype Config = Config(tempDirSet: bool, writeWorks: bool, removalWorks: bool, capacity: nat) {
    predicate Clears() {
      tempDirSet && removalWorks
    }
  }

  datatype State = State(
    waiter: Waiter,
    watcher: Watcher,
    gcsfuse: Process,
    parentWriteEnd: bool,      // our copy of the write end is open
    readEnd: bool,
    outcomeDone: bool,         // the channel has been closed
    pipe: seq<Message>,        // written, not yet read
    read: seq<Message>,        // read by the watcher, in order
    ready: bool,               // the ready file exists
    attempted: bool,           // the watcher has tried to create the ready file
    written: bool,             // ... and succeeded
    removed: bool)             // exit handling has removed it, or found it missing

  predicate Init(s: State) {
    s == State(Starting, Unborn, Unstarted, true, true, false, [], [], false, false, false, false)
  }

  // Steps of the waiter.

  predicate Start(s: State, s': State) {
    && s.waiter.Starting?
    && (s' == s.(waiter := CloseWriteEnd(true), gcsfuse := Running) || s' == s.(waiter := CloseWriteEnd(false)))
  }

  predicate CloseWrite(s: State, s': State) {
    && s.waiter.CloseWriteEnd?
    && s' == s.(parentWriteEnd := false, waiter := if s.waiter.started then SpawnWatcher else CloseReadEnd)
  }

  predicate CloseReadOnFailure(s: State, s': State) {
    s.waiter.CloseReadEnd? && s' == s.(readEnd := false, waiter := Returned)
  }

  predicate Spawn(s: State, s': State) {
    s.waiter.SpawnWatcher? && s' == s.(watcher := Reading, waiter := WaitExit)
  }

  predicate ReapExit(s: State, s': State) {
    s.waiter.WaitExit? && s.gcsfuse.Exited? && s' == s.(waiter := WaitOutcome)
  }

  predicate SeeOutcomeDone(s: State, s': State) {
    s.waiter.WaitOutcome? && s.outcomeDone && s' == s.(waiter := RemoveReady)
  }

  predicate Remove(c: Config, s: State, s': State) {
    && s.waiter.RemoveReady?
    && s' == AfterRemove(c, s)
  }

  function AfterRemove(c: Config, s: State): State {
    if c.Clears() then s.(ready := false, removed := true, waiter := Returned) else s.(waiter := Returned)
  }

  // Steps of the watcher.

  predicate ReadMessage(s: State, s': State) {
    s.watcher.Reading? && s.pipe != [] && s' == AfterRead(s)
  }

  function AfterRead(s: State): State
    requires s.pipe != []
  {
    var next := match s.pipe[0] case Mounted => WriteReady case Garbage => CloseReader case Retrying => Reading;
    s.(pipe := s.pipe[1..], read := s.read + [s.pipe[0]], watcher := next)
  }

  predicate ReadEof(s: State, s': State) {
    && s.watcher.Reading? && s.pipe == [] && !s.parentWriteEnd && !s.gcsfuse.Running?
    && s' == s.(watcher := CloseReader)
  }

  predicate WriteFile(c: Config, s: State, s': State) {
    s.watcher.WriteReady? && s' == AfterWrite(c, s)
  }

  function AfterWrite(c: Config, s: State): State {
    if c.writeWorks then s.(ready := true, attempted := true, written := true, watcher := CloseReader)
    else s.(attempted := true, watcher := CloseReader)
  }

  predicate WatcherClose(s: State, s': State) {
    s.watcher.CloseReader? && s' == s.(readEnd := false, watcher := CloseOutcome)
  }

  predicate WatcherDone(s: State, s': State) {
    s.watcher.CloseOutcome? && s' == s.(outcomeDone := true, watcher := Finished)
  }

  // Steps of gcsfuse, which may write, and exit, at any time while it runs.

  predicate Report(c: Config, s: State, s': State) {
    && s.gcsfuse.Running?
    && if s.readEnd then |s.pipe| < c.capacity && (exists m :: s' == s.(pipe := s.pipe + [m])) else s' == s
  }

  predicate Exit(s: State, s': State) {
    s.gcsfuse.Running? && s' == s.(gcsfuse := Exited)
  }

  predicate WaiterStep(c: Config, s: State, s': State) {
    || Start(s, s') || CloseWrite(s, s') || CloseReadOnFailure(s, s') || Spawn(s, s')
    || ReapExit(s, s') || SeeOutcomeDone(s, s') || Remove(c, s, s')
  }

  predicate WatcherStep(c: Config, s: State, s': State) {
    ReadMessage(s, s') || ReadEof(s, s') || WriteFile(c, s, s') || WatcherClose(s, s') || WatcherDone(s, s')
  }

  predicate Next(c: Config, s: State, s': State) {
    WaiterStep(c, s, s') || WatcherStep(c, s, s') || Report(c, s, s') || Exit(s, s')
  }

  ghost predicate Run(c: Config, run: seq<State>) {
    && run != [] && Init(run[0])
    && forall i :: 0 <= i < |run| - 1 ==> Next(c, run[i], run[i + 1])
  }

  // ----- Invariant -----

  predicate WatcherInv(c: Config, s: State) {
    && (s.watcher.Unborn? || s.watcher.Reading? ==> OutcomeOf(s.read).NoOutcome?)
    && (s.watcher.Unborn? ==> s.read == [])
    && (s.watcher.WriteReady? ==> OutcomeOf(s.read).ReportedOk?)
    && (s.outcomeDone <==> s.watcher.Finished?)
    && (s.attempted <==> OutcomeOf(s.read).ReportedOk? && !s.watcher.WriteReady?)
    && (s.written <==> s.attempted && c.writeWorks)
    && (!s.watcher.Unborn? && !s.watcher.Reading? && OutcomeOf(s.read).NoOutcome? ==> s.pipe == [] && !s.gcsfuse.Running?)
    && (s.readEnd <==> !s.watcher.CloseOutcome? && !s.watcher.Finished? && !(s.waiter.Returned? && s.gcsfuse.Unstarted?))
  }

  predicate WaiterInv(s: State) {
    && (s.parentWriteEnd <==> s.waiter.Starting? || s.waiter.CloseWriteEnd?)
    && (s.waiter.Starting? || s.waiter.CloseReadEnd? ==> s.gcsfuse.Unstarted?)
    && (s.waiter.CloseWriteEnd? ==> (s.waiter.started <==> !s.gcsfuse.Unstarted?))
    && (s.waiter.SpawnWatcher? || s.waiter.WaitExit? ==> !s.gcsfuse.Unstarted?)
    && (s.waiter.WaitOutcome? || s.waiter.RemoveReady? ==> s.gcsfuse.Exited?)
    && (s.waiter.Returned? ==> !s.gcsfuse.Running?)
    && (s.watcher.Unborn? <==> s.waiter.Starting? || s.waiter.CloseWriteEnd? || s.waiter.CloseReadEnd? || s.waiter.SpawnWatcher? || s.gcsfuse.Unstarted?)
    && (s.waiter.RemoveReady? || (s.waiter.Returned? && s.gcsfuse.Exited?) ==> s.outcomeDone)
  }

  predicate FileInv(c: Config, s: State) {
    && (s.ready <==> s.written && !s.removed)
    && (s.removed <==> s.waiter.Returned? && s.gcsfuse.Exited? && c.Clears())
  }

  predicate Inv(c: Config, s: State) {
    WatcherInv(c, s) && WaiterInv(s) && FileInv(c, s)
  }

  lemma InvInit(c: Config, s: State)
    requires Init(s)
    ensures Inv(c, s)
  {
  }

  lemma InvWaiter(c: Config, s: State, s': State)
    requires Inv(c, s) && WaiterStep(c, s, s')
    ensures Inv(c, s')
  {
  }

  lemma InvWatcher(c: Config, s: State, s': State)
    requires Inv(c, s) && WatcherStep(c, s, s')
    ensures Inv(c, s')
  {
    if ReadMessage(s, s') {
      OutcomeSnoc(s.read, s.pipe[0]);
      assert [s.pipe[0]][1..] == [];
    }
  }

  lemma InvGcsfuse(c: Config, s: State, s': State)
    requires Inv(c, s) && (Report(c, s, s') || Exit(s, s'))
    ensures Inv(c, s')
  {
  }

  lemma InvNext(c: Config, s: State, s': State)
    requires Inv(c, s) && Next(c, s, s')
    ensures Inv(c, s')
  {
    hide Inv, WaiterStep, WatcherStep, Report, Exit;
    if WaiterStep(c, s, s') {
      InvWaiter(c, s, s');
    } else if WatcherStep(c, s, s') {
      InvWatcher(c, s, s');
    } else {
      InvGcsfuse(c, s, s');
    }
  }

  lemma {:induction false} InvRun(c: Config, run: seq<State>, i: nat)
    requires Run(c, run) && i < |run|
    ensures Inv(c, run[i])
  {
    hide Next, Inv;
    if i == 0 {
      InvInit(c, run[0]);
    } else {
      InvRun(c, run, i - 1);
      assert Next(c, run[i - 1], run[i - 1 + 1]);
      InvNext(c, run[i - 1], run[i]);
    }
  }

  // ----- Safety -----

  /** The ready file exists only after a success was reported ahead of any garbage, and
      before exit handling removed it. */
  lemma ReadyOnlyWhileMounted(c: Config, run: seq<State>, i: nat)
    requires Run(c, run) && i < |run| && run[i].ready
    ensures OutcomeOf(run[i].read).ReportedOk?
    ensures !run[i].removed
  {
    InvRun(c, run, i);
  }

  /** Exit handling returns last: nobody is left to touch the file. */
  lemma ReturnedIsFinal(c: Config, s: State, s': State)
    requires Inv(c, s) && s.waiter.Returned?
    ensures !Next(c, s, s')
  {
  }

  /** Once exit handling has returned nothing changes any more, and the ready file is absent
      if and only if no success was reported, or it could not be written, or it was cleared:
      the mount has a volume directory and the removal works. */
  lemma AbsentAfterReturn(c: Config, run: seq<State>, i: nat)
    requires Run(c, run) && i < |run| && run[i].waiter.Returned?
    ensures i == |run| - 1
    ensures !run[i].ready <==> !OutcomeOf(run[i].read).ReportedOk? || !c.writeWorks || c.Clears()
  {
    hide Next;
    InvRun(c, run, i);
    if i < |run| - 1 {
      ReturnedIsFinal(c, run[i], run[i + 1]);
      assert false;
    }
  }

  // ----- Progress -----

  function WaiterRank(w: Waiter): nat {
    match w
    case Starting => 7
    case CloseWriteEnd(_) => 6
    case CloseReadEnd => 1
    case SpawnWatcher => 5
    case WaitExit => 3
    case WaitOutcome => 2
    case RemoveReady => 1
    case Returned => 0
  }

  function WatcherRank(w: Watcher): nat {
    match w
    case Unborn => 4
    case Reading => 4
    case WriteReady => 3
    case CloseReader => 2
    case CloseOutcome => 1
    case Finished => 0
  }

  /** How many more steps can be taken once gcsfuse no longer runs. */
  function StepsLeft(s: State): nat {
    WaiterRank(s.waiter) + WatcherRank(s.watcher) + |s.pipe|
  }

  ghost predicate CanStep(c: Config, s: State) {
    exists s' :: Next(c, s, s')
  }

  /** Once gcsfuse has exited, no reachable state short of the end is stuck: the write end
      is closed before the watcher is awaited, so end of file reaches it. */
  lemma NeverStuck(c: Config, s: State)
    requires Inv(c, s) && s.gcsfuse.Exited? && !(s.waiter.Returned? && s.watcher.Finished?)
    ensures CanStep(c, s)
  {
    if s.waiter.CloseWriteEnd? {
      assert Next(c, s, s.(parentWriteEnd := false, waiter := if s.waiter.started then SpawnWatcher else CloseReadEnd));
    } else if s.waiter.SpawnWatcher? {
      assert Next(c, s, s.(watcher := Reading, waiter := WaitExit));
    } else if s.waiter.WaitExit? {
      assert Next(c, s, s.(waiter := WaitOutcome));
    } else if s.waiter.RemoveReady? {
      assert Next(c, s, AfterRemove(c, s));
    } else if s.waiter.WaitOutcome? && s.outcomeDone {
      assert Next(c, s, s.(waiter := RemoveReady));
    } else {
      WatcherMoves(c, s);
    }
  }

  lemma WatcherMoves(c: Config, s: State)
    requires !s.parentWriteEnd && !s.gcsfuse.Running? && !s.watcher.Unborn? && !s.watcher.Finished?
    ensures CanStep(c, s)
  {
    match s.watcher
    case Reading =>
      if s.pipe == [] {
        assert Next(c, s, s.(watcher := CloseReader));
      } else {
        assert Next(c, s, AfterRead(s));
      }
    case WriteReady => assert Next(c, s, AfterWrite(c, s));
    case CloseReader => assert Next(c, s, s.(readEnd := false, watcher := CloseOutcome));
    case CloseOutcome => assert Next(c, s, s.(outcomeDone := true, watcher := Finished));
  }

  lemma StepDecreases(c: Config, s: State, s': State)
    requires Inv(c, s) && s.gcsfuse.Exited? && Next(c, s, s')
    ensures s'.gcsfuse.Exited? && StepsLeft(s') < StepsLeft(s)
  {
  }

  lemma {:induction false} ExitBounds(c: Config, run: seq<State>, i: nat, j: nat)
    requires Run(c, run) && i <= j < |run| && run[i].gcsfuse.Exited?
    ensures run[j].gcsfuse.Exited? && StepsLeft(run[j]) + (j - i) <= StepsLeft(run[i])
    decreases j
  {
    hide Next, Inv, StepsLeft;
    if i < j {
      ExitBounds(c, run, i, j - 1);
      InvRun(c, run, j - 1);
      assert Next(c, run[j - 1], run[j - 1 + 1]);
      StepDecreases(c, run[j - 1], run[j]);
    }
  }

  /** Every run that cannot be continued after gcsfuse's exit has finished exit handling,
      and it got there within `StepsLeft` steps. */
  lemma ExitIsHandled(c: Config, run: seq<State>, i: nat)
    requires Run(c, run) && i < |run| && run[i].gcsfuse.Exited? && !CanStep(c, run[|run| - 1])
    ensures run[|run| - 1].waiter.Returned? && run[|run| - 1].outcomeDone
    ensures |run| - 1 - i <= StepsLeft(run[i])
  {
    var last := |run| - 1;
    ExitBounds(c, run, i, last);
    InvRun(c, run, last);
    if !(run[last].waiter.Returned? && run[last].watcher.Finished?) {
      NeverStuck(c, run[last]);
    }
  }

  /** When the watcher is done, it has tried to write the ready file if and only if the
      messages gcsfuse wrote, read or still in the pipe, report a success ahead of garbage. */
  lemma FinishedOutcome(c: Config, run: seq<State>)
    requires Run(c, run) && run[|run| - 1].watcher.Finished?
    ensures var s := run[|run| - 1];
            s.attempted <==> OutcomeOf(s.read + s.pipe).ReportedOk?
  {
    var s := run[|run| - 1];
    InvRun(c, run, |run| - 1);
    if OutcomeOf(s.read).NoOutcome? {
      assert s.read + [] == s.read;
    } else {
      OutcomeDecided(s.read, s.pipe);
    }
  }

  /** The order of the first two steps matters: with our copy of the write end still open,
      an exited gcsfuse leaves the watcher and the waiter waiting for each other. */
  lemma OpenWriteEndBlocks(c: Config, s: State)
    requires s.waiter.WaitOutcome? && s.watcher.Reading? && s.gcsfuse.Exited? && s.pipe == []
    requires s.parentWriteEnd && !s.outcomeDone
    ensures !CanStep(c, s)
  {
  }

  // ----- The startup probe over all volumes -----

  /** An entry of the volume directory: files are skipped, directories are volumes. */
  datatype Entry = Entry(name: string, isDir: bool, ready: bool, errorText: string)

  function Complaint(e: Entry): string {
    var msg := TrimSpace(e.errorText);
    if msg != "" then msg else "mount in progress"
  }

  /** The reason is the error text without the space around it, if there is any. */
  lemma ComplaintIs(e: Entry, pre: string, msg: string, post: string)
    requires e.errorText == pre + (msg + post) && AllSpace(pre) && AllSpace(post)
    requires msg != "" ==> !IsSpace(msg[0]) && !IsSpace(msg[|msg| - 1])
    ensures Complaint(e) == if msg == "" then "mount in progress" else msg
  {
    TrimSpaceAround(pre, msg, post);
    hide TrimSpace;
  }

  /** The volumes that hold the pod up, in directory order, each with its reason. */
  function NotReady(entries: seq<Entry>): seq<(string, string)> {
    if entries == [] then []
    else
      var e := entries[|entries| - 1];
      NotReady(entries[..|entries| - 1]) + if e.isDir && !e.ready then [(e.name, Complaint(e))] else []
  }

  lemma {:induction false} NotReadyEmpty(entries: seq<Entry>)
    ensures NotReady(entries) == [] <==> forall i :: 0 <= i < |entries| && entries[i].isDir ==> entries[i].ready
    decreases |entries|
  {
    if entries != [] {
      var k := |entries| - 1;
      NotReadyEmpty(entries[..k]);
      assert forall i :: 0 <= i < k ==> entries[..k][i] == entries[i];
    }
  }

  lemma {:induction false} NotReadyConcat(a: seq<Entry>, b: seq<Entry>)
    ensures NotReady(a + b) == NotReady(a) + NotReady(b)
    decreases |b|
  {
    hide Complaint;
    if b == [] {
      assert a + b == a;
    } else {
      NotReadyConcat(a, b[..|b| - 1]);
      assert (a + b)[..|a + b| - 1] == a + b[..|b| - 1];
    }
  }

  lemma NotReadyOne(e: Entry)
    ensures NotReady([e]) == if e.isDir && !e.ready then [(e.name, Complaint(e))] else []
  {
    hide Complaint;
    assert [e][..0] == [];
  }

  datatype Listing = Entries(entries: seq<Entry>) | NoDirectory | Unlistable

  datatype ProbeResult = Passed | CannotList | NotMounted(volumes: seq<(string, string)>)

  /** Passes exactly when the volume directory is missing or every volume in it holds a ready
      file; otherwise says what holds the mount up, in directory order. */
  method CheckStartupProbe(listing: Listing) returns (r: ProbeResult)
    ensures r.CannotList? <==> listing.Unlistable?
    ensures r.Passed? <==> listing.NoDirectory? || (listing.Entries? && forall i :: 0 <= i < |listing.entries| && listing.entries[i].isDir ==> listing.entries[i].ready)
    ensures r.NotMounted? ==> listing.Entries? && r.volumes == NotReady(listing.entries) && r.volumes != []
  {
    if listing.Unlistable? {
      return CannotList;
    }
    if listing.NoDirectory? {
      return Passed;
    }
    var notReady: seq<(string, string)> := [];
    var all := listing.entries;
    NotReadyEmpty(all);
    for i := 0 to |all|
      invariant notReady == NotReady(all[..i])
    {
      assert all[..i + 1][..i] == all[..i];
      var entry := all[i];
      if !entry.isDir || entry.ready {
        continue;
      }
      notReady := notReady + [(entry.name, Complaint(entry))];
    }
    assert all[..|all|] == all;
    return if |notReady| > 0 then NotMounted(notReady) else Passed;
  }

  function Final(run: seq<State>): State
    requires run != []
  {
    run[|run| - 1]
  }

  /** A success was reported, and exit handling has not removed the ready file. */
  predicate Serving(s: State) {
    OutcomeOf(s.read).ReportedOk? && !s.removed
  }

  /** The probe passes only while every volume's gcsfuse has reported a successful mount
      and exit handling has not removed the ready file. */
  lemma ProbePassesOnlyWhenMounted(cs: seq<Config>, runs: seq<seq<State>>, entries: seq<Entry>)
    requires |cs| == |runs| == |entries| && NotReady(entries) == []
    requires forall i :: 0 <= i < |entries| && entries[i].isDir ==>
               Run(cs[i], runs[i]) && entries[i].ready == Final(runs[i]).ready
    ensures forall i :: 0 <= i < |entries| && entries[i].isDir ==> runs[i] != [] && Serving(Final(runs[i]))
  {
    NotReadyEmpty(entries);
    forall i | 0 <= i < |entries| && entries[i].isDir
      ensures runs[i] != [] && Serving(Final(runs[i]))
    {
      ReadyOnlyWhileMounted(cs[i], runs[i], |runs[i]| - 1);
    }
  }

  // ----- A run that leaves the ready file behind -----

  ghost predicate Reachable(c: Config, s: State) {
    exists run :: Run(c, run) && run[|run| - 1] == s
  }

  lemma Reach(c: Config, s: State, s': State)
    requires Reachable(c, s) && Next(c, s, s')
    ensures Reachable(c, s')
  {
    hide Next;
    var run :| Run(c, run) && run[|run| - 1] == s;
    var run' := run + [s'];
    forall i | 0 <= i < |run'| - 1
      ensures Next(c, run'[i], run'[i + 1])
    {
      if i < |run| - 1 { assert Next(c, run[i], run[i + 1]); }
    }
    assert Run(c, run') && run'[|run'| - 1] == s';
  }

  /** gcsfuse has reported its mount and the watcher has written the ready file. */
  lemma ReachMounted(c: Config) returns (s: State)
    requires c.capacity > 0 && c.writeWorks
    ensures Reachable(c, s)
    ensures s == State(WaitExit, CloseReader, Running, false, true, false, [], [Mounted], true, true, true, false)
  {
    var s0 := State(Starting, Unborn, Unstarted, true, true, false, [], [], false, false, false, false);
    assert Run(c, [s0]) && [s0][|[s0]| - 1] == s0;
    hide Reachable;
    var s1 := s0.(waiter := CloseWriteEnd(true), gcsfuse := Running);
    Reach(c, s0, s1);
    var s2 := s1.(parentWriteEnd := false, waiter := SpawnWatcher);
    Reach(c, s1, s2);
    var s3 := s2.(watcher := Reading, waiter := WaitExit);
    Reach(c, s2, s3);
    var s4 := s3.(pipe := s3.pipe + [Mounted]);
    Reach(c, s3, s4);
    var s5 := AfterRead(s4);
    Reach(c, s4, s5);
    s := AfterWrite(c, s5);
    Reach(c, s5, s);
  }

  /** Without a volume directory, or when the removal fails, exit handling returns with the
      ready file in place. */
  lemma ReadyFileLeftBehind(c: Config) returns (s: State)
    requires c.capacity > 0 && c.writeWorks && !c.Clears()
    ensures Reachable(c, s) && s.waiter.Returned? && s.gcsfuse.Exited? && s.ready
  {
    var s0 := ReachMounted(c);
    hide Reachable;
    var s1 := s0.(gcsfuse := Exited);
    Reach(c, s0, s1);
    var s2 := s1.(readEnd := false, watcher := CloseOutcome);
    Reach(c, s1, s2);
    var s3 := s2.(outcomeDone := true, watcher := Finished);
    Reach(c, s2, s3);
    var s4 := s3.(waiter := WaitOutcome);
    Reach(c, s3, s4);
    var s5 := s4.(waiter := RemoveReady);
    Reach(c, s4, s5);
    s := AfterRemove(c, s5);
    Reach(c, s5, s);
  }
}

/** Cancellation and containment in the supervisor (orchestrator/supervisor.py:538-801, 858-935), as a
    state machine over one job. The event loop switches tasks only where the code awaits, so each
    action below is the code between two awaits. Any number of cancel callers, the worker, its
    done-callback and the cleanup task interleave freely; other jobs write to the same event log. */
module Supervisor {
  import opened Prelude

  datatype Status = Queued | Running | Succeeded | Failed | Cancelled

  /** The containment annotation: what kind of worker it was, and for a CLI child whether its exit
      was verified. */
  datatype Note = InProcess | Cli(verified: bool)

  datatype Event = Event(job: string, status: Status, note: Option<Note>)

  predicate Annotated(e: Event) {
    e.status == Cancelled && e.note.Some?
  }

  /** A durable append: it succeeds, nothing is written, or it fails after the line was written. */
  datatype Io = Written | NotWritten | WrittenThenFailed

  /** Where the worker task is. The two reporting phases are the gossip awaits after SUCCEEDED, inside
      the try block, and after FAILED, inside an exception handler. */
  datatype Phase = NotStarted | Dispatching | ReportingSuccess | ReportingFailure | Done(cancelled: bool)

  /** The supervisor-owned cleanup task: it is created at most once, makes a bounded number of
      attempts, and may wait in the middle of one while it kills a mapped child. */
  datatype Cleanup = NoCleanup | Attempt(n: nat) | Killing(n: nat, proc: nat) | Finished

  const ATTEMPTS := 3

  datatype State = State(
    job: string,
    log: seq<Event>,
    phase: Phase,
    cancelRequested: bool,
    callbackPending: bool,
    waiting: nat,
    child: Option<nat>,
    exited: set<nat>,
    cleanup: Cleanup,
    faults: Faults)

  /** What has gone wrong so far: an append failed, a kill raised, an annotation append failed although
      its line was written. */
  datatype Faults = Faults(append: bool, kill: bool, doubtful: bool)

  // ---- the event log ----

  /** The last event of one job: the fold that every status read uses. */
  function Latest(log: seq<Event>, job: string): Option<Event> {
    if log == [] then None
    else if log[|log| - 1].job == job then Some(log[|log| - 1])
    else Latest(log[..|log| - 1], job)
  }

  predicate LatestCancelled(log: seq<Event>, job: string) {
    Latest(log, job).Some? && Latest(log, job).value.status == Cancelled
  }

  predicate LatestAnnotated(log: seq<Event>, job: string) {
    Latest(log, job).Some? && Annotated(Latest(log, job).value)
  }

  /** How many annotations a job has. */
  function Notes(log: seq<Event>, job: string): nat {
    if log == [] then 0
    else Notes(log[..|log| - 1], job) + if log[|log| - 1].job == job && Annotated(log[|log| - 1]) then 1 else 0
  }

  /** Once cancelled a job stays cancelled; once annotated it is only annotated again. */
  ghost predicate Ordered(log: seq<Event>, job: string) {
    forall i, j :: 0 <= i < j < |log| && log[i].job == job && log[j].job == job ==>
      && (log[i].status == Cancelled ==> log[j].status == Cancelled)
      && (Annotated(log[i]) ==> Annotated(log[j]))
  }

  /** The status table of all jobs, as the source builds it. */
  method LatestStatusPerJob(log: seq<Event>) returns (states: map<string, Event>)
    ensures forall job :: job in states <==> Latest(log, job).Some?
    ensures forall job :: job in states ==> Some(states[job]) == Latest(log, job)
  {
    states := map[];
    for i := 0 to |log|
      invariant forall job :: job in states <==> Latest(log[..i], job).Some?
      invariant forall job :: job in states ==> Some(states[job]) == Latest(log[..i], job)
    {
      assert log[..i + 1][..i] == log[..i];
      states := states[log[i].job := log[i]];
    }
    assert log[..|log|] == log;
  }

  // ---- the actions ----

  datatype Action =
    | WorkerStarts(io: Io)
    | CancelledBeforeStart
    | DispatchReturns(io: Io, fallback: Io)
    | DispatchRaises(io: Io)
    | ReportEnds
    | CancelDelivered(io: Io)
    | CallbackRuns(io: Io)
    | LegacyCancel
    | CallerBegins
    | CallerResumes(io: Io)
    | CallerGoesAway
    | AttemptInProcess(io: Io)
    | AttemptStartsKill
    | KillRaises
    | KillReturns(contained: bool, io: Io)
    | NoteChild(proc: nat)
    | ClearChild(proc: nat)
    | ChildExits(proc: nat)
    | OtherJob(event: Event)

  function Append(s: State, e: Event, io: Io): State {
    s.(log := if io == NotWritten then s.log else s.log + [e],
       faults := Faults(s.faults.append || io != Written, s.faults.kill,
                        s.faults.doubtful || (io == WrittenThenFailed && Annotated(e))))
  }

  function Own(s: State, status: Status): Event {
    Event(s.job, status, None)
  }

  /** The task is over; its done-callback is scheduled. */
  function Finish(s: State, cancelled: bool): State {
    s.(phase := Done(cancelled), callbackPending := true)
  }

  /** The except-clause for ordinary errors: record FAILED, then report it. */
  function Fail(s: State, io: Io): State {
    var s1 := Append(s, Own(s, Status.Failed), io);
    if io == Written then s1.(phase := ReportingFailure) else Finish(s1, false)
  }

  /** Create the cleanup task unless one is running, ran before, or the log is already annotated. */
  function EnsureCleanup(s: State): State {
    if s.cleanup != NoCleanup || LatestAnnotated(s.log, s.job) then s else s.(cleanup := Attempt(1))
  }

  /** The cancellation checkpoint written on behalf of a cancelled worker, then cleanup. */
  function Checkpoint(s: State, io: Io): State {
    if LatestCancelled(s.log, s.job) then EnsureCleanup(s)
    else
      var s1 := Append(s, Own(s, Cancelled), io);
      if io == Written then EnsureCleanup(s1) else s1
  }

  /** An attempt failed: try again or give up. */
  function Retry(s: State, n: nat): State {
    s.(cleanup := if n < ATTEMPTS then Attempt(n + 1) else Finished)
  }

  predicate CleanupRunning(s: State) {
    s.cleanup.Attempt? || s.cleanup.Killing?
  }

  predicate Enabled(s: State, a: Action) {
    match a
    case WorkerStarts(_) => s.phase == NotStarted && !s.cancelRequested
    case CancelledBeforeStart => s.phase == NotStarted && s.cancelRequested
    case DispatchReturns(_, _) => s.phase == Dispatching
    case DispatchRaises(_) => s.phase == Dispatching
    case ReportEnds => s.phase == ReportingSuccess || s.phase == ReportingFailure
    case CancelDelivered(_) => s.cancelRequested && !s.phase.NotStarted? && !s.phase.Done?
    case CallbackRuns(_) => s.callbackPending
    case LegacyCancel => true
    case CallerBegins => true
    case CallerResumes(_) => s.waiting > 0
    case CallerGoesAway => s.waiting > 0
    case AttemptInProcess(_) => s.cleanup.Attempt? && s.child.None?
    case AttemptStartsKill => s.cleanup.Attempt? && s.child.Some?
    case KillRaises => s.cleanup.Killing?
    case KillReturns(_, _) => s.cleanup.Killing?
    case NoteChild(_) => true
    case ClearChild(_) => true
    case ChildExits(_) => true
    case OtherJob(e) => e.job != s.job
  }

  function WorkerNext(s: State, a: Action): State
    requires Enabled(s, a)
  {
    match a
    case WorkerStarts(io) =>
      var s1 := Append(s, Own(s, Status.Running), io);
      if io == Written then s1.(phase := Dispatching) else Finish(s1, false)
    case CancelledBeforeStart => Finish(s, true)
    case DispatchReturns(io, fallback) =>
      var s1 := Append(s, Own(s, Succeeded), io);
      if io == Written then s1.(phase := ReportingSuccess) else Fail(s1, fallback)
    case DispatchRaises(io) => Fail(s, io)
    case ReportEnds => Finish(s, false)
    case CancelDelivered(io) =>
      // inside the try block the worker records CANCELLED itself; inside a handler it cannot
      if s.phase == ReportingFailure then Finish(s, true)
      else Finish(Append(s, Own(s, Cancelled), io), io == Written)
    case _ => s
  }

  function CallerNext(s: State, a: Action): State
    requires Enabled(s, a)
  {
    match a
    case CallbackRuns(io) =>
      var s1 := s.(callbackPending := false);
      if s.phase == Done(true) then Checkpoint(s1, io) else s1
    case LegacyCancel => if s.phase.Done? then s else s.(cancelRequested := true)
    case CallerBegins =>
      if CleanupRunning(s) then s
      else if s.phase.Done? then (if LatestCancelled(s.log, s.job) && s.child.Some? then EnsureCleanup(s) else s)
      else s.(cancelRequested := true, waiting := s.waiting + 1)
    case CallerResumes(io) =>
      var s1 := s.(waiting := s.waiting - 1);
      if s.phase == Done(true) then Checkpoint(s1, io)
      else if LatestCancelled(s.log, s.job) then EnsureCleanup(s1)
      else s1
    case CallerGoesAway => s.(waiting := s.waiting - 1)
    case _ => s
  }

  function CleanupNext(s: State, a: Action): State
    requires Enabled(s, a)
  {
    match a
    case AttemptInProcess(io) =>
      var s1 := Append(s, Event(s.job, Cancelled, Some(InProcess)), io);
      if io == Written then s1.(cleanup := Finished) else Retry(s1, s.cleanup.n)
    case AttemptStartsKill => s.(cleanup := Killing(s.cleanup.n, s.child.value))
    case KillRaises => Retry(s, s.cleanup.n).(faults := s.faults.(kill := true))
    case KillReturns(contained, io) =>
      var p := s.cleanup.proc;
      var s1 := Append(s, Event(s.job, Cancelled, Some(Cli(p in s.exited && contained))), io);
      if io == Written then s1.(cleanup := Finished, child := if s.child == Some(p) then None else s.child)
      else Retry(s1, s.cleanup.n)
    case _ => s
  }

  function WorldNext(s: State, a: Action): State
    requires Enabled(s, a)
  {
    match a
    case NoteChild(p) =>
      // a different child that is still running is kept
      if s.child.Some? && s.child.value != p && s.child.value !in s.exited then s else s.(child := Some(p))
    case ClearChild(p) => if s.child == Some(p) then s.(child := None) else s
    case ChildExits(p) => s.(exited := s.exited + {p})
    case OtherJob(e) => s.(log := s.log + [e])
    case _ => s
  }

  function Next(s: State, a: Action): State
    requires Enabled(s, a)
  {
    match a
    case WorkerStarts(_) => WorkerNext(s, a)
    case CancelledBeforeStart => WorkerNext(s, a)
    case DispatchReturns(_, _) => WorkerNext(s, a)
    case DispatchRaises(_) => WorkerNext(s, a)
    case ReportEnds => WorkerNext(s, a)
    case CancelDelivered(_) => WorkerNext(s, a)
    case CallbackRuns(_) => CallerNext(s, a)
    case LegacyCancel => CallerNext(s, a)
    case CallerBegins => CallerNext(s, a)
    case CallerResumes(_) => CallerNext(s, a)
    case CallerGoesAway => CallerNext(s, a)
    case AttemptInProcess(_) => CleanupNext(s, a)
    case AttemptStartsKill => CleanupNext(s, a)
    case KillRaises => CleanupNext(s, a)
    case KillReturns(_, _) => CleanupNext(s, a)
    case _ => WorldNext(s, a)
  }

  /** A job just submitted: its QUEUED event is durable, its id is new to the log. */
  predicate Submitted(s: State) {
    && (forall i :: 0 <= i < |s.log| - 1 ==> s.log[i].job != s.job)
    && s.log != [] && s.log[|s.log| - 1] == Own(s, Queued)
    && s.phase == NotStarted && !s.cancelRequested && !s.callbackPending && s.waiting == 0 && s.child.None?
    && s.cleanup == NoCleanup && !s.faults.append && !s.faults.kill && !s.faults.doubtful
  }

  // ---- the invariant ----

  ghost predicate CleanupOk(s: State) {
    match s.cleanup
    case NoCleanup => Notes(s.log, s.job) == 0
    case Attempt(n) => 1 <= n <= ATTEMPTS && Notes(s.log, s.job) < n && (!s.faults.doubtful ==> Notes(s.log, s.job) == 0)
    case Killing(n, _) => 1 <= n <= ATTEMPTS && Notes(s.log, s.job) < n && (!s.faults.doubtful ==> Notes(s.log, s.job) == 0)
    case Finished => Notes(s.log, s.job) <= ATTEMPTS && (!s.faults.doubtful ==> Notes(s.log, s.job) <= 1)
  }

  ghost predicate Inv(s: State) {
    && Ordered(s.log, s.job)
    && (LatestAnnotated(s.log, s.job) <==> Notes(s.log, s.job) > 0)
    && (LatestCancelled(s.log, s.job) ==> s.phase.Done?)
    && (s.cleanup != NoCleanup ==> LatestCancelled(s.log, s.job))
    && CleanupOk(s)
    && (!s.faults.append && s.phase == Done(true) && !s.callbackPending ==> s.cleanup != NoCleanup)
    && (!s.faults.append && !s.faults.kill && s.cleanup == Finished ==> LatestAnnotated(s.log, s.job))
  }

  lemma LogGrows(log: seq<Event>, e: Event, job: string)
    ensures Latest(log + [e], job) == if e.job == job then Some(e) else Latest(log, job)
    ensures Notes(log + [e], job) == Notes(log, job) + if e.job == job && Annotated(e) then 1 else 0
  {
    assert (log + [e])[..|log|] == log;
  }

  lemma {:induction false} OrderedLatest(log: seq<Event>, job: string, i: nat)
    requires Ordered(log, job) && i < |log| && log[i].job == job
    ensures log[i].status == Cancelled ==> LatestCancelled(log, job)
    ensures Annotated(log[i]) ==> LatestAnnotated(log, job)
    decreases |log|
  {
    var n := |log| - 1;
    if log[n].job != job {
      OrderedLatest(log[..n], job, i);
    }
  }

  lemma OrderedGrows(log: seq<Event>, e: Event, job: string)
    requires Ordered(log, job)
    requires e.job == job ==> (LatestCancelled(log, job) ==> e.status == Cancelled) && (LatestAnnotated(log, job) ==> Annotated(e))
    ensures Ordered(log + [e], job)
  {
    hide LatestCancelled;
    hide LatestAnnotated;
    var longer := log + [e];
    forall i, j | 0 <= i < j < |longer| && longer[i].job == job && longer[j].job == job
      ensures (longer[i].status == Cancelled ==> longer[j].status == Cancelled) && (Annotated(longer[i]) ==> Annotated(longer[j]))
    {
      if j == |log| {
        OrderedLatest(log, job, i);
      }
    }
  }

  /** What one append does to the log's summary. */
  lemma AppendSummary(s: State, e: Event, io: Io)
    requires e.job == s.job && Ordered(s.log, s.job)
    requires LatestCancelled(s.log, s.job) ==> e.status == Cancelled
    requires LatestAnnotated(s.log, s.job) ==> Annotated(e)
    ensures
      var s1 := Append(s, e, io);
      && Ordered(s1.log, s.job)
      && Latest(s1.log, s.job) == (if io == NotWritten then Latest(s.log, s.job) else Some(e))
      && Notes(s1.log, s.job) == Notes(s.log, s.job) + (if io != NotWritten && Annotated(e) then 1 else 0)
  {
    hide Ordered;
    LogGrows(s.log, e, s.job);
    OrderedGrows(s.log, e, s.job);
  }

  lemma AppendsBeforeDone(s: State, status: Status, io: Io)
    requires Inv(s) && !s.phase.Done?
    ensures
      var s1 := Append(s, Own(s, status), io);
      && Inv(s1.(phase := Done(false), callbackPending := true))
      && (io == Written && status == Cancelled ==> Inv(s1.(phase := Done(true), callbackPending := true)))
      && (status != Cancelled ==> forall phase: Phase :: !phase.Done? ==> Inv(s1.(phase := phase)))
  {
    hide Ordered;
    hide Latest;
    hide Notes;
    AppendSummary(s, Own(s, status), io);
  }

  lemma WorkerKeepsInv(s: State, a: Action)
    requires Inv(s) && Enabled(s, a)
    ensures Inv(WorkerNext(s, a))
  {
    hide Ordered;
    hide Latest;
    hide Notes;
    match a
    case WorkerStarts(io) => AppendsBeforeDone(s, Status.Running, io);
    case DispatchReturns(io, fallback) =>
      AppendsBeforeDone(s, Succeeded, io);
      var s1 := Append(s, Own(s, Succeeded), io);
      assert s1.(phase := Dispatching) == s1;
      AppendsBeforeDone(s1, Status.Failed, fallback);
    case DispatchRaises(io) => AppendsBeforeDone(s, Status.Failed, io);
    case CancelDelivered(io) => AppendsBeforeDone(s, Cancelled, io);
    case _ =>
  }

  /** A done worker's checkpoint may leave `callbackPending` as it likes. */
  lemma CheckpointKeepsInv(s: State, pending: bool, waiting: nat, io: Io)
    requires Inv(s) && s.phase == Done(true)
    ensures Inv(Checkpoint(s.(callbackPending := pending, waiting := waiting), io))
  {
    hide Ordered;
    hide Latest;
    hide Notes;
    if !LatestCancelled(s.log, s.job) {
      AppendSummary(s, Own(s, Cancelled), io);
    }
  }

  lemma EnsureKeepsInv(s: State)
    requires Inv(s) && LatestCancelled(s.log, s.job)
    ensures Inv(EnsureCleanup(s))
  {
    hide Ordered;
    hide Latest;
    hide Notes;
  }

  lemma CallerKeepsInv(s: State, a: Action)
    requires Inv(s) && Enabled(s, a)
    ensures Inv(CallerNext(s, a))
  {
    hide Ordered;
    hide Latest;
    hide Notes;
    hide Checkpoint;
    match a
    case CallbackRuns(io) =>
      if s.phase == Done(true) {
        CheckpointKeepsInv(s, false, s.waiting, io);
        assert s.(callbackPending := false, waiting := s.waiting) == s.(callbackPending := false);
      }
    case CallerBegins =>
      if s.phase.Done? && LatestCancelled(s.log, s.job) {
        EnsureKeepsInv(s);
      }
    case CallerResumes(io) =>
      if s.phase == Done(true) {
        CheckpointKeepsInv(s, s.callbackPending, s.waiting - 1, io);
        assert s.(callbackPending := s.callbackPending, waiting := s.waiting - 1) == s.(waiting := s.waiting - 1);
      } else if LatestCancelled(s.log, s.job) {
        EnsureKeepsInv(s.(waiting := s.waiting - 1));
      }
    case _ =>
  }

  lemma CleanupKeepsInv(s: State, a: Action)
    requires Inv(s) && Enabled(s, a)
    ensures Inv(CleanupNext(s, a))
  {
    hide Ordered;
    hide Latest;
    hide Notes;
    match a
    case AttemptInProcess(io) => AppendSummary(s, Event(s.job, Cancelled, Some(InProcess)), io);
    case KillReturns(contained, io) =>
      AppendSummary(s, Event(s.job, Cancelled, Some(Cli(s.cleanup.proc in s.exited && contained))), io);
    case _ =>
  }

  lemma WorldKeepsInv(s: State, a: Action)
    requires Inv(s) && Enabled(s, a)
    ensures Inv(WorldNext(s, a))
  {
    hide Ordered;
    hide Latest;
    hide Notes;
    if a.OtherJob? {
      LogGrows(s.log, a.event, s.job);
      OrderedGrows(s.log, a.event, s.job);
    }
  }

  lemma StepKeepsInv(s: State, a: Action)
    requires Inv(s) && Enabled(s, a)
    ensures Inv(Next(s, a))
  {
    hide Inv;
    hide WorkerNext;
    hide CallerNext;
    hide CleanupNext;
    hide WorldNext;
    WorkerKeepsInv(s, a);
    CallerKeepsInv(s, a);
    CleanupKeepsInv(s, a);
    WorldKeepsInv(s, a);
  }

  ghost predicate Reaches(s: State, actions: seq<Action>, end: State)
    decreases |actions|
  {
    if actions == [] then end == s
    else Enabled(s, actions[0]) && Reaches(Next(s, actions[0]), actions[1..], end)
  }

  lemma {:induction false} RunKeepsInv(s: State, actions: seq<Action>, end: State)
    requires Inv(s) && Reaches(s, actions, end)
    ensures Inv(end)
    decreases |actions|
  {
    hide Inv;
    hide Next;
    hide Enabled;
    if actions != [] {
      StepKeepsInv(s, actions[0]);
      RunKeepsInv(Next(s, actions[0]), actions[1..], end);
    }
  }

  lemma {:induction false} NoOwnEvents(log: seq<Event>, job: string)
    requires forall i :: 0 <= i < |log| ==> log[i].job != job
    ensures Latest(log, job).None? && Notes(log, job) == 0
  {
    if log != [] {
      NoOwnEvents(log[..|log| - 1], job);
    }
  }

  lemma SubmittedOk(s: State)
    requires Submitted(s)
    ensures Inv(s)
  {
    NoOwnEvents(s.log[..|s.log| - 1], s.job);
  }

  // ---- the protocol's promises ----

  /** CANCELLED is absorbing: over every interleaving, and whatever the appends did, every event of
      the job after a CANCELLED one is CANCELLED. */
  lemma CancelledIsAbsorbing(s: State, actions: seq<Action>, end: State, i: nat, j: nat)
    requires Submitted(s) && Reaches(s, actions, end)
    requires i < j < |end.log| && end.log[i].job == end.job && end.log[j].job == end.job && end.log[i].status == Cancelled
    ensures end.log[j].status == Cancelled
  {
    SubmittedOk(s);
    RunKeepsInv(s, actions, end);
  }

  /** At most one annotation, and it is the job's last event, unless an annotation append failed after
      its line had been written; even then at most one per attempt, and nothing else follows. */
  lemma OneAnnotationLast(s: State, actions: seq<Action>, end: State)
    requires Submitted(s) && Reaches(s, actions, end)
    ensures Notes(end.log, end.job) <= if end.faults.doubtful then 3 else 1
    ensures forall i, j :: 0 <= i < j < |end.log| && end.log[i].job == end.job && end.log[j].job == end.job ==>
              Annotated(end.log[i]) ==> Annotated(end.log[j])
    ensures Notes(end.log, end.job) > 0 ==> LatestAnnotated(end.log, end.job)
  {
    SubmittedOk(s);
    RunKeepsInv(s, actions, end);
  }

  lemma WorkerKeepsChild(s: State, a: Action)
    requires Enabled(s, a)
    ensures WorkerNext(s, a).child == s.child
  {
  }

  lemma CallerKeepsChild(s: State, a: Action)
    requires Enabled(s, a)
    ensures CallerNext(s, a).child == s.child
  {
    hide LatestCancelled;
    hide LatestAnnotated;
  }

  lemma CleanupDropsChild(s: State, a: Action)
    requires Enabled(s, a) && CleanupNext(s, a).child != s.child
    ensures s.cleanup.Killing? && s.child == Some(s.cleanup.proc) && a.KillReturns? && a.io == Written
    ensures LatestAnnotated(CleanupNext(s, a).log, s.job) && CleanupNext(s, a).cleanup == Finished
  {
    hide Latest;
    LogGrows(s.log, Event(s.job, Cancelled, Some(Cli(s.cleanup.proc in s.exited && a.contained))), s.job);
  }

  /** Containment drops a mapped child only in the step that made its annotation durable, as the last
      event of the job, and only the child it has killed; a failed append keeps the mapping. */
  lemma ChildOutlivesAnnotation(s: State, a: Action)
    requires Enabled(s, a) && s.child.Some? && Next(s, a).child != s.child && !a.NoteChild? && !a.ClearChild?
    ensures s.cleanup.Killing? && s.child == Some(s.cleanup.proc) && a.KillReturns? && a.io == Written
    ensures LatestAnnotated(Next(s, a).log, s.job) && Next(s, a).cleanup == Finished
  {
    hide WorkerNext;
    hide CallerNext;
    hide CleanupNext;
    hide LatestAnnotated;
    WorkerKeepsChild(s, a);
    CallerKeepsChild(s, a);
    if CleanupNext(s, a).child != s.child {
      CleanupDropsChild(s, a);
    }
  }

  /** When no append and no kill ever failed, a cancelled worker whose callback has run and whose
      cleanup is not in progress has its one annotation on record. */
  lemma CancelledJobsGetAnnotated(s: State, actions: seq<Action>, end: State)
    requires Submitted(s) && Reaches(s, actions, end)
    requires !end.faults.append && !end.faults.kill && end.phase == Done(true) && !end.callbackPending && !CleanupRunning(end)
    ensures LatestAnnotated(end.log, end.job)
  {
    SubmittedOk(s);
    RunKeepsInv(s, actions, end);
  }

  function FreshJob(job: string): State {
    State(job, [Event(job, Queued, None)], NotStarted, false, false, 0, None, {}, NoCleanup, Faults(false, false, false))
  }

  lemma Unfold(s: State, a: Action, rest: seq<Action>, end: State)
    requires Enabled(s, a) && Reaches(Next(s, a), rest, end)
    ensures Reaches(s, [a] + rest, end)
  {
    assert ([a] + rest)[1..] == rest;
  }

  /** FAILED is not absorbing: a cancel that lands while the failure is being reported adds CANCELLED. */
  lemma FailedIsNotAbsorbing(job: string) returns (actions: seq<Action>, end: State)
    ensures Submitted(FreshJob(job)) && Reaches(FreshJob(job), actions, end)
    ensures end.log == [Event(job, Queued, None), Event(job, Status.Running, None), Event(job, Status.Failed, None), Event(job, Cancelled, None)]
  {
    var s0 := FreshJob(job);
    var s1 := Next(s0, WorkerStarts(Written));
    var s2 := Next(s1, DispatchRaises(Written));
    var s3 := Next(s2, LegacyCancel);
    var s4 := Next(s3, CancelDelivered(Written));
    end := Next(s4, CallbackRuns(Written));
    assert Reaches(end, [], end);
    Unfold(s4, CallbackRuns(Written), [], end);
    Unfold(s3, CancelDelivered(Written), [CallbackRuns(Written)] + [], end);
    var a3 := [CancelDelivered(Written)] + ([CallbackRuns(Written)] + []);
    Unfold(s2, LegacyCancel, a3, end);
    Unfold(s1, DispatchRaises(Written), [LegacyCancel] + a3, end);
    Unfold(s0, WorkerStarts(Written), [DispatchRaises(Written)] + ([LegacyCancel] + a3), end);
    actions := [WorkerStarts(Written)] + ([DispatchRaises(Written)] + ([LegacyCancel] + a3));
  }

  function Repeated(job: string): seq<Event> {
    var note := Event(job, Cancelled, Some(InProcess));
    [Event(job, Queued, None), Event(job, Cancelled, None), note, note]
  }

  lemma TwoNotes(job: string)
    ensures Notes(Repeated(job), job) == 2
  {
    var log := Repeated(job);
    LogGrows(log[..0], log[0], job);
    LogGrows(log[..1], log[1], job);
    LogGrows(log[..2], log[2], job);
    LogGrows(log[..3], log[3], job);
    assert log[..0] + [log[0]] == log[..1] && log[..1] + [log[1]] == log[..2];
    assert log[..2] + [log[2]] == log[..3] && log[..3] + [log[3]] == log;
  }

  lemma {:induction false} ReachesJoin(s: State, a: seq<Action>, mid: State, b: seq<Action>, end: State)
    requires Reaches(s, a, mid) && Reaches(mid, b, end)
    ensures Reaches(s, a + b, end)
    decreases |a|
  {
    hide Next;
    hide Enabled;
    if a == [] {
      assert a + b == b;
    } else {
      assert (a + b)[1..] == a[1..] + b;
      ReachesJoin(Next(s, a[0]), a[1..], mid, b, end);
    }
  }

  lemma CancelledBeforeItRan(job: string) returns (actions: seq<Action>, end: State)
    ensures Reaches(FreshJob(job), actions, end)
    ensures end.log == [Event(job, Queued, None), Event(job, Cancelled, None)] && end.job == job
    ensures end.cleanup == Attempt(1) && end.child == None
  {
    var s0 := FreshJob(job);
    var s1 := Next(s0, LegacyCancel);
    var s2 := Next(s1, CancelledBeforeStart);
    end := Next(s2, CallbackRuns(Written));
    assert Reaches(end, [], end);
    Unfold(s2, CallbackRuns(Written), [], end);
    Unfold(s1, CancelledBeforeStart, [CallbackRuns(Written)] + [], end);
    actions := [LegacyCancel] + ([CancelledBeforeStart] + ([CallbackRuns(Written)] + []));
    Unfold(s0, LegacyCancel, actions[1..], end);
    assert actions == [LegacyCancel] + actions[1..];
  }

  lemma AnnotatedTwice(s: State) returns (actions: seq<Action>, end: State)
    requires s.cleanup == Attempt(1) && s.child == None
    ensures Reaches(s, actions, end) && end.faults.doubtful
    ensures end.log == s.log + [Event(s.job, Cancelled, Some(InProcess)), Event(s.job, Cancelled, Some(InProcess))]
  {
    var mid := Next(s, AttemptInProcess(WrittenThenFailed));
    end := Next(mid, AttemptInProcess(Written));
    assert Reaches(end, [], end);
    Unfold(mid, AttemptInProcess(Written), [], end);
    actions := [AttemptInProcess(WrittenThenFailed)] + ([AttemptInProcess(Written)] + []);
    Unfold(s, AttemptInProcess(WrittenThenFailed), [AttemptInProcess(Written)] + [], end);
  }

  /** The exception in OneAnnotationLast is real: an annotation that was written although its append
      failed is retried without looking at the log, and then stands there twice. */
  lemma FailedButWrittenAnnotationsRepeat(job: string) returns (actions: seq<Action>, end: State)
    ensures Submitted(FreshJob(job)) && Reaches(FreshJob(job), actions, end)
    ensures Notes(end.log, job) == 2 && end.faults.doubtful
  {
    hide Notes;
    hide Reaches;
    var first, mid := CancelledBeforeItRan(job);
    var second, last := AnnotatedTwice(mid);
    ReachesJoin(FreshJob(job), first, mid, second, last);
    actions, end := first + second, last;
    TwoNotes(job);
    assert end.log == Repeated(job);
  }
}

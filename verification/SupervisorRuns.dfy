/** A job's lifecycle over every interleaving of the supervisor's actions: the order of its events, when
    a reported outcome is final, and how often it is annotated. */
module SupervisorRuns {
  import opened Prelude
  import opened Supervisor

  // ---- the order of events ----

  function Rank(status: Status): nat {
    match status
    case Queued => 0
    case Running => 1
    case Succeeded => 2
    case Failed => 3
    case Cancelled => 4
  }

  predicate MayFollow(a: Status, b: Status) {
    Rank(a) < Rank(b) || (a == Cancelled && b == Cancelled)
  }

  /** Each status at most once and in this order, except that CANCELLED may repeat. */
  ghost predicate InOrder(log: seq<Event>, job: string) {
    forall i, j :: 0 <= i < j < |log| && log[i].job == job && log[j].job == job ==> MayFollow(log[i].status, log[j].status)
  }

  predicate Report(status: Status) {
    status == Succeeded || status == Status.Failed
  }

  /** After a reported outcome only CANCELLED. */
  ghost predicate ReportsLast(log: seq<Event>, job: string) {
    forall i, j :: 0 <= i < j < |log| && log[i].job == job && log[j].job == job && Report(log[i].status) ==>
      log[j].status == Cancelled
  }

  ghost predicate LatestIs(s: State, status: Status) {
    Latest(s.log, s.job).Some? && Latest(s.log, s.job).value.status == status
  }

  ghost predicate PhaseOk(s: State) {
    match s.phase
    case NotStarted => LatestIs(s, Queued)
    case Dispatching => LatestIs(s, Status.Running)
    case ReportingSuccess => LatestIs(s, Succeeded)
    case ReportingFailure => LatestIs(s, Status.Failed)
    case Done(_) => true
  }

  /** The lifecycle invariant. */
  ghost predicate Life(s: State) {
    && InOrder(s.log, s.job) && PhaseOk(s)
    && (!s.faults.append ==> ReportsLast(s.log, s.job))
    && (!s.faults.append && s.phase != Done(true) ==> !LatestCancelled(s.log, s.job))
  }

  lemma {:induction false} LatestIsHighest(log: seq<Event>, job: string, i: nat)
    requires InOrder(log, job) && i < |log| && log[i].job == job
    ensures Latest(log, job).Some? && Rank(log[i].status) <= Rank(Latest(log, job).value.status)
    decreases |log|
  {
    var n := |log| - 1;
    if log[n].job != job {
      LatestIsHighest(log[..n], job, i);
    }
  }

  lemma OrderGrows(log: seq<Event>, e: Event, job: string)
    requires InOrder(log, job)
    requires e.job == job ==> Latest(log, job).None? || MayFollow(Latest(log, job).value.status, e.status)
    ensures InOrder(log + [e], job)
  {
    hide Latest;
    var longer := log + [e];
    forall i, j | 0 <= i < j < |longer| && longer[i].job == job && longer[j].job == job
      ensures MayFollow(longer[i].status, longer[j].status)
    {
      if j == |log| {
        LatestIsHighest(log, job, i);
      }
    }
  }

  lemma ReportsGrow(log: seq<Event>, e: Event, job: string)
    requires InOrder(log, job) && ReportsLast(log, job)
    requires e.job == job ==>
      e.status == Cancelled || Latest(log, job).None? || Rank(Latest(log, job).value.status) < Rank(Succeeded)
    ensures ReportsLast(log + [e], job)
  {
    hide Latest;
    hide InOrder;
    var longer := log + [e];
    forall i, j | 0 <= i < j < |longer| && longer[i].job == job && longer[j].job == job && Report(longer[i].status)
      ensures longer[j].status == Cancelled
    {
      if j == |log| {
        LatestIsHighest(log, job, i);
      }
    }
  }

  /** What one append does to the lifecycle. */
  lemma AppendLife(s: State, e: Event, io: Io)
    requires e.job == s.job && InOrder(s.log, s.job)
    requires Latest(s.log, s.job).None? || MayFollow(Latest(s.log, s.job).value.status, e.status)
    ensures
      var s1 := Append(s, e, io);
      && InOrder(s1.log, s.job)
      && Latest(s1.log, s.job) == (if io == NotWritten then Latest(s.log, s.job) else Some(e))
      && (ReportsLast(s.log, s.job) && (e.status == Cancelled || !LatestReport(s)) ==> ReportsLast(s1.log, s.job))
  {
    hide InOrder;
    hide ReportsLast;
    LogGrows(s.log, e, s.job);
    OrderGrows(s.log, e, s.job);
    if ReportsLast(s.log, s.job) && (e.status == Cancelled || !LatestReport(s)) {
      ReportsGrow(s.log, e, s.job);
    }
  }

  ghost predicate LatestReport(s: State) {
    Latest(s.log, s.job).Some? && Rank(Latest(s.log, s.job).value.status) >= Rank(Succeeded)
  }

  lemma CancelFits(s: State)
    ensures Latest(s.log, s.job).None? || MayFollow(Latest(s.log, s.job).value.status, Cancelled)
  {
    hide Latest;
  }

  lemma FailKeepsLife(s: State, io: Io)
    requires InOrder(s.log, s.job) && (LatestIs(s, Status.Running) || (LatestIs(s, Succeeded) && s.faults.append))
    requires !s.faults.append ==> ReportsLast(s.log, s.job)
    ensures Life(Fail(s, io))
  {
    hide InOrder;
    hide Latest;
    hide ReportsLast;
    AppendLife(s, Own(s, Status.Failed), io);
  }

  lemma WorkerKeepsLife(s: State, a: Action)
    requires Life(s) && Enabled(s, a)
    ensures Life(WorkerNext(s, a))
  {
    hide InOrder;
    hide Latest;
    hide ReportsLast;
    hide Fail;
    match a
    case WorkerStarts(io) => AppendLife(s, Own(s, Status.Running), io);
    case DispatchReturns(io, fallback) =>
      AppendLife(s, Own(s, Succeeded), io);
      if io != Written {
        FailKeepsLife(Append(s, Own(s, Succeeded), io), fallback);
      }
    case DispatchRaises(io) => FailKeepsLife(s, io);
    case CancelDelivered(io) =>
      CancelFits(s);
      AppendLife(s, Own(s, Cancelled), io);
    case _ =>
  }

  lemma CheckpointKeepsLife(s: State, io: Io)
    requires Life(s) && s.phase == Done(true)
    ensures Life(Checkpoint(s, io))
  {
    hide InOrder;
    hide Latest;
    hide ReportsLast;
    hide LatestAnnotated;
    CancelFits(s);
    AppendLife(s, Own(s, Cancelled), io);
  }

  lemma CallerKeepsLife(s: State, a: Action)
    requires Life(s) && Enabled(s, a)
    ensures Life(CallerNext(s, a))
  {
    hide InOrder;
    hide Latest;
    hide ReportsLast;
    hide LatestAnnotated;
    hide Checkpoint;
    if s.phase == Done(true) {
      match a
      case CallbackRuns(io) => CheckpointKeepsLife(s.(callbackPending := false), io);
      case CallerResumes(io) => CheckpointKeepsLife(s.(waiting := s.waiting - 1), io);
      case _ =>
    }
  }

  lemma CleanupKeepsLife(s: State, a: Action)
    requires Inv(s) && Life(s) && Enabled(s, a)
    ensures Life(CleanupNext(s, a))
  {
    hide InOrder;
    hide Ordered;
    hide Latest;
    hide Notes;
    hide ReportsLast;
    hide LatestAnnotated;
    CancelFits(s);
    match a
    case AttemptInProcess(io) => AppendLife(s, Event(s.job, Cancelled, Some(InProcess)), io);
    case KillReturns(contained, io) =>
      AppendLife(s, Event(s.job, Cancelled, Some(Cli(s.cleanup.proc in s.exited && contained))), io);
    case _ =>
  }

  lemma OtherJobKeepsLife(s: State, e: Event)
    requires Life(s) && e.job != s.job
    ensures Life(s.(log := s.log + [e]))
  {
    hide InOrder;
    hide Latest;
    hide ReportsLast;
    var s1 := s.(log := s.log + [e]);
    LogGrows(s.log, e, s.job);
    OrderGrows(s.log, e, s.job);
    if !s.faults.append {
      ReportsGrow(s.log, e, s.job);
    }
    assert Latest(s1.log, s.job) == Latest(s.log, s.job);
    assert PhaseOk(s1);
    assert Life(s1);
  }

  lemma SameLogKeepsLife(s: State, s1: State)
    requires Life(s) && s1.(child := s.child, exited := s.exited) == s
    ensures Life(s1)
  {
    hide InOrder;
    hide Latest;
    hide ReportsLast;
  }

  lemma WorldKeepsLife(s: State, a: Action)
    requires Life(s) && Enabled(s, a)
    ensures Life(WorldNext(s, a))
  {
    hide Life;
    if a.OtherJob? {
      OtherJobKeepsLife(s, a.event);
    } else {
      SameLogKeepsLife(s, WorldNext(s, a));
    }
  }

  lemma StepKeepsLife(s: State, a: Action)
    requires Inv(s) && Life(s) && Enabled(s, a)
    ensures Inv(Next(s, a)) && Life(Next(s, a))
  {
    hide Inv;
    hide Life;
    hide WorkerNext;
    hide CallerNext;
    hide CleanupNext;
    hide WorldNext;
    StepKeepsInv(s, a);
    WorkerKeepsLife(s, a);
    CallerKeepsLife(s, a);
    CleanupKeepsLife(s, a);
    WorldKeepsLife(s, a);
  }

  lemma {:induction false} RunKeepsLife(s: State, actions: seq<Action>, end: State)
    requires Inv(s) && Life(s) && Reaches(s, actions, end)
    ensures Inv(end) && Life(end)
    decreases |actions|
  {
    hide Inv;
    hide Life;
    hide Next;
    hide Enabled;
    if actions != [] {
      StepKeepsLife(s, actions[0]);
      RunKeepsLife(Next(s, actions[0]), actions[1..], end);
    }
  }

  lemma SubmittedLives(s: State)
    requires Submitted(s)
    ensures Inv(s) && Life(s)
  {
    hide Inv;
    SubmittedOk(s);
  }

  /** The lifecycle, over every interleaving and however appends fail: a job's events come in the order
      QUEUED, RUNNING, SUCCEEDED, FAILED, CANCELLED, each at most once save the last. In particular
      only CANCELLED follows FAILED, and only FAILED or CANCELLED follow SUCCEEDED. */
  lemma EventsComeInOrder(s: State, actions: seq<Action>, end: State, i: nat, j: nat)
    requires Submitted(s) && Reaches(s, actions, end)
    requires i < j < |end.log| && end.log[i].job == end.job && end.log[j].job == end.job
    ensures MayFollow(end.log[i].status, end.log[j].status)
    ensures end.log[i].status == Status.Failed ==> end.log[j].status == Cancelled
    ensures end.log[i].status == Succeeded ==> end.log[j].status == Status.Failed || end.log[j].status == Cancelled
  {
    hide Inv;
    SubmittedLives(s);
    RunKeepsLife(s, actions, end);
  }

  // ---- when a reported outcome is final ----

  ghost predicate HasReport(log: seq<Event>, job: string) {
    exists i :: 0 <= i < |log| && log[i].job == job && Report(log[i].status)
  }

  /** A cancel reached the worker after it had started. */
  ghost predicate CancelCame(actions: seq<Action>) {
    exists k :: 0 <= k < |actions| && actions[k].CancelDelivered?
  }

  /** What no action takes back: the job, that an append failed, and a request to cancel. */
  ghost predicate Carried(s: State, s1: State) {
    s1.job == s.job && (s.faults.append ==> s1.faults.append) && (s.cancelRequested ==> s1.cancelRequested)
  }

  lemma WorkerCarries(s: State, a: Action)
    requires Enabled(s, a)
    ensures Carried(s, WorkerNext(s, a))
  {
  }

  lemma CallerCarries(s: State, a: Action)
    requires Enabled(s, a)
    ensures Carried(s, CallerNext(s, a))
  {
    hide LatestCancelled;
    hide LatestAnnotated;
  }

  lemma CleanupCarries(s: State, a: Action)
    requires Enabled(s, a)
    ensures Carried(s, CleanupNext(s, a))
  {
  }

  lemma WorldCarries(s: State, a: Action)
    requires Enabled(s, a)
    ensures Carried(s, WorldNext(s, a))
  {
  }

  lemma StepCarries(s: State, a: Action)
    requires Enabled(s, a)
    ensures Carried(s, Next(s, a))
  {
    hide Carried;
    hide WorkerNext;
    hide CallerNext;
    hide CleanupNext;
    hide WorldNext;
    WorkerCarries(s, a);
    CallerCarries(s, a);
    CleanupCarries(s, a);
    WorldCarries(s, a);
  }

  lemma {:induction false} FailureStaysThroughout(s: State, actions: seq<Action>, end: State)
    requires Reaches(s, actions, end) && !end.faults.append
    ensures !s.faults.append && end.job == s.job
    decreases |actions|
  {
    hide Next;
    hide Enabled;
    if actions != [] {
      FailureStaysThroughout(Next(s, actions[0]), actions[1..], end);
      StepCarries(s, actions[0]);
    }
  }

  lemma UnreportedGrows(log: seq<Event>, e: Event, job: string)
    requires e.job != job || !Report(e.status)
    ensures HasReport(log + [e], job) <==> HasReport(log, job)
  {
    var longer := log + [e];
    if HasReport(log, job) {
      var i :| 0 <= i < |log| && log[i].job == job && Report(log[i].status);
      assert longer[i] == log[i];
    }
  }

  lemma DoneCaller(s: State, a: Action)
    requires Enabled(s, a) && s.phase.Done?
    ensures CallerNext(s, a).phase == s.phase && CallerNext(s, a).job == s.job
    ensures HasReport(CallerNext(s, a).log, s.job) <==> HasReport(s.log, s.job)
  {
    hide HasReport;
    hide LatestCancelled;
    hide LatestAnnotated;
    UnreportedGrows(s.log, Own(s, Cancelled), s.job);
  }

  lemma DoneCleanup(s: State, a: Action)
    requires Enabled(s, a)
    ensures CleanupNext(s, a).phase == s.phase && CleanupNext(s, a).job == s.job
    ensures HasReport(CleanupNext(s, a).log, s.job) <==> HasReport(s.log, s.job)
  {
    hide HasReport;
    match a
    case AttemptInProcess(io) => UnreportedGrows(s.log, Event(s.job, Cancelled, Some(InProcess)), s.job);
    case KillReturns(contained, io) =>
      UnreportedGrows(s.log, Event(s.job, Cancelled, Some(Cli(s.cleanup.proc in s.exited && contained))), s.job);
    case _ =>
  }

  lemma DoneWorld(s: State, a: Action)
    requires Enabled(s, a)
    ensures WorldNext(s, a).phase == s.phase && WorldNext(s, a).job == s.job
    ensures HasReport(WorldNext(s, a).log, s.job) <==> HasReport(s.log, s.job)
  {
    hide HasReport;
    if a.OtherJob? {
      UnreportedGrows(s.log, a.event, s.job);
    }
  }

  /** Once the worker is done, nothing is reported any more and its phase stays. */
  lemma DoneStep(s: State, a: Action)
    requires Enabled(s, a) && s.phase.Done?
    ensures Next(s, a).phase == s.phase && Next(s, a).job == s.job
    ensures HasReport(Next(s, a).log, s.job) <==> HasReport(s.log, s.job)
  {
    hide HasReport;
    hide CallerNext;
    hide CleanupNext;
    hide WorldNext;
    DoneCaller(s, a);
    DoneCleanup(s, a);
    DoneWorld(s, a);
  }

  lemma {:induction false} DoneRun(s: State, actions: seq<Action>, end: State)
    requires Reaches(s, actions, end) && s.phase.Done?
    ensures end.phase == s.phase && (HasReport(end.log, s.job) <==> HasReport(s.log, s.job)) && end.job == s.job
    decreases |actions|
  {
    hide Next;
    hide Enabled;
    hide HasReport;
    if actions != [] {
      DoneStep(s, actions[0]);
      DoneRun(Next(s, actions[0]), actions[1..], end);
    }
  }

  lemma NotStartedUnreported(s: State)
    requires Life(s) && s.phase == NotStarted
    ensures !HasReport(s.log, s.job)
  {
    if i :| 0 <= i < |s.log| && s.log[i].job == s.job && Report(s.log[i].status) {
      LatestIsHighest(s.log, s.job, i);
    }
  }

  /** Without failing appends, only these two actions end the worker as cancelled. */
  lemma WhoCancels(s: State, a: Action)
    requires Enabled(s, a) && !s.phase.Done? && !Next(s, a).faults.append
    ensures Next(s, a).phase == Done(true) <==> a.CancelDelivered? || a.CancelledBeforeStart?
  {
  }

  lemma {:induction false} CancelledByDelivery(s: State, actions: seq<Action>, end: State)
    requires Inv(s) && Life(s) && Reaches(s, actions, end) && !end.faults.append && HasReport(end.log, end.job) && !s.phase.Done?
    ensures end.phase == Done(true) <==> CancelCame(actions)
    decreases |actions|
  {
    hide Inv;
    hide Life;
    hide Next;
    hide Enabled;
    hide HasReport;
    if actions != [] {
      var a, rest, s1 := actions[0], actions[1..], Next(s, actions[0]);
      assert actions == [a] + rest;
      StepKeepsLife(s, a);
      FailureStaysThroughout(s1, rest, end);
      WhoCancels(s, a);
      if a.CancelledBeforeStart? {
        StartsUnreported(s, a);
        DoneRun(s1, rest, end);
        assert false;
      } else if s1.phase.Done? {
        DoneRun(s1, rest, end);
        DoneTakesNoCancel(s1, rest, end);
      } else {
        CancelledByDelivery(s1, rest, end);
        NotCancelStep(s, a);
      }
      CancelCameSplits(a, rest);
    }
  }

  lemma CancelCameSplits(a: Action, rest: seq<Action>)
    ensures CancelCame([a] + rest) <==> a.CancelDelivered? || CancelCame(rest)
  {
    var all := [a] + rest;
    if a.CancelDelivered? {
      assert all[0].CancelDelivered?;
    }
    if k :| 0 <= k < |rest| && rest[k].CancelDelivered? {
      assert all[k + 1].CancelDelivered?;
    }
  }

  lemma NotCancelStep(s: State, a: Action)
    requires Enabled(s, a) && !Next(s, a).phase.Done?
    ensures !a.CancelDelivered?
  {
  }

  lemma StartsUnreported(s: State, a: Action)
    requires Life(s) && Enabled(s, a) && a.CancelledBeforeStart?
    ensures !HasReport(Next(s, a).log, s.job) && Next(s, a).job == s.job && Next(s, a).phase.Done?
  {
    NotStartedUnreported(s);
    assert Next(s, a).log == s.log;
  }

  lemma {:induction false} DoneTakesNoCancel(s: State, actions: seq<Action>, end: State)
    requires Reaches(s, actions, end) && s.phase.Done?
    ensures !CancelCame(actions)
    decreases |actions|
  {
    hide Next;
    hide HasReport;
    if actions != [] {
      DoneStep(s, actions[0]);
      DoneTakesNoCancel(Next(s, actions[0]), actions[1..], end);
      assert actions == [actions[0]] + actions[1..];
      CancelCameSplits(actions[0], actions[1..]);
    }
  }

  lemma {:induction false} LatestStands(log: seq<Event>, job: string) returns (j: nat)
    requires Latest(log, job).Some?
    ensures j < |log| && log[j].job == job && Some(log[j]) == Latest(log, job)
    ensures forall i :: j < i < |log| ==> log[i].job != job
  {
    var n := |log| - 1;
    if log[n].job == job {
      j := n;
    } else {
      j := LatestStands(log[..n], job);
    }
  }

  /** Some later event of the job follows event i. */
  ghost predicate Superseded(s: State, i: nat) {
    exists j :: i < j < |s.log| && s.log[j].job == s.job
  }

  lemma SupersededByCancel(s: State, i: nat)
    requires Inv(s) && Life(s) && !s.faults.append && !s.callbackPending
    requires i < |s.log| && s.log[i].job == s.job && Report(s.log[i].status)
    ensures Superseded(s, i) <==> s.phase == Done(true)
  {
    hide Notes;
    hide InOrder;
    if j :| i < j < |s.log| && s.log[j].job == s.job {
      assert s.log[j].status == Cancelled;
      OrderedLatest(s.log, s.job, j);
    }
    if s.phase == Done(true) {
      var j := LatestStands(s.log, s.job);
      assert s.log[j].status == Cancelled;
      assert i < j;
    }
  }

  /** When a report is final: in a run without failed appends, once the worker's callback has run or is
      not due yet, an event follows a SUCCEEDED or FAILED one if and only if a cancel was delivered to
      the running worker; and then what follows is CANCELLED. */
  lemma ReportsAreFinalExactly(s: State, actions: seq<Action>, end: State, i: nat)
    requires Submitted(s) && Reaches(s, actions, end) && !end.faults.append && !end.callbackPending
    requires i < |end.log| && end.log[i].job == end.job && Report(end.log[i].status)
    ensures Superseded(end, i) <==> CancelCame(actions)
    ensures forall j :: i < j < |end.log| && end.log[j].job == end.job ==> end.log[j].status == Cancelled
  {
    hide Inv;
    hide InOrder;
    SubmittedLives(s);
    RunKeepsLife(s, actions, end);
    SupersededByCancel(end, i);
    assert HasReport(end.log, end.job);
    hide Life;
    CancelledByDelivery(s, actions, end);
  }

  /** SUCCEEDED is not absorbing either: a cancel that lands while the success is being reported. */
  lemma SucceededIsNotAbsorbing(job: string) returns (actions: seq<Action>, end: State)
    ensures Submitted(FreshJob(job)) && Reaches(FreshJob(job), actions, end)
    ensures end.log == [Event(job, Queued, None), Event(job, Status.Running, None), Event(job, Succeeded, None), Event(job, Cancelled, None)]
  {
    var s0 := FreshJob(job);
    var s1 := Next(s0, WorkerStarts(Written));
    var s2 := Next(s1, DispatchReturns(Written, Written));
    var s3 := Next(s2, LegacyCancel);
    end := Next(s3, CancelDelivered(Written));
    assert Reaches(end, [], end);
    Unfold(s3, CancelDelivered(Written), [], end);
    var a3 := [CancelDelivered(Written)] + [];
    Unfold(s2, LegacyCancel, a3, end);
    Unfold(s1, DispatchReturns(Written, Written), [LegacyCancel] + a3, end);
    Unfold(s0, WorkerStarts(Written), [DispatchReturns(Written, Written)] + ([LegacyCancel] + a3), end);
    actions := [WorkerStarts(Written)] + ([DispatchReturns(Written, Written)] + ([LegacyCancel] + a3));
  }

  // ---- a cancel caller cancels ----

  predicate Cancels(a: Action) {
    a.CancelledBeforeStart? || a.CancelDelivered?
  }

  lemma {:induction false} RequestStands(s: State, actions: seq<Action>, end: State)
    requires Reaches(s, actions, end) && s.cancelRequested
    ensures end.cancelRequested && end.job == s.job
    decreases |actions|
  {
    hide Next;
    hide Enabled;
    if actions != [] {
      StepCarries(s, actions[0]);
      RequestStands(Next(s, actions[0]), actions[1..], end);
    }
  }

  lemma NoCleanupYet(s: State)
    requires Inv(s) && !s.phase.Done?
    ensures !CleanupRunning(s)
  {
    hide Ordered;
    hide Latest;
    hide Notes;
  }

  /** A cancelling action that happened, with no failed append, leaves the worker cancelled. */
  lemma {:induction false} CancelEndsWorker(s: State, actions: seq<Action>, end: State, k: nat)
    requires Reaches(s, actions, end) && !end.faults.append && k < |actions| && Cancels(actions[k])
    ensures end.phase == Done(true)
    decreases |actions|
  {
    hide Next;
    hide HasReport;
    var s1 := Next(s, actions[0]);
    FailureStaysThroughout(s1, actions[1..], end);
    if k == 0 {
      WhoCancels(s, actions[0]);
      DoneRun(s1, actions[1..], end);
    } else {
      CancelEndsWorker(s1, actions[1..], end, k - 1);
    }
  }

  lemma CancelledIsRecorded(s: State)
    requires Inv(s) && s.phase == Done(true) && !s.faults.append && !s.callbackPending
    ensures LatestCancelled(s.log, s.job)
  {
    hide Ordered;
    hide Latest;
    hide Notes;
  }

  /** A cancel caller of either kind that finds the worker not done leaves a request that stands, over any
      later interleaving, for as long as the worker is not done: a worker that has not started can then no
      longer start but only be cancelled, and one that has started can be delivered the cancellation at
      any time. When such an action is taken and no append fails, the job's last event is CANCELLED as soon
      as the callback that was due has run. */
  lemma CancelRequestsTakeEffect(s: State, before: seq<Action>, found: State, caller: Action, after: seq<Action>, end: State)
    requires Submitted(s) && Reaches(s, before, found) && !found.phase.Done?
    requires caller.CallerBegins? || caller.LegacyCancel?
    requires Reaches(Next(found, caller), after, end)
    ensures end.phase == NotStarted ==> Enabled(end, CancelledBeforeStart) && forall io :: !Enabled(end, WorkerStarts(io))
    ensures end.phase != NotStarted && !end.phase.Done? ==> forall io :: Enabled(end, CancelDelivered(io))
    ensures (exists k :: 0 <= k < |after| && (after[k].CancelledBeforeStart? || after[k].CancelDelivered?))
            && !end.faults.append && !end.callbackPending ==>
              LatestCancelled(end.log, end.job)
  {
    hide Inv;
    hide LatestCancelled;
    SubmittedOk(s);
    RunKeepsInv(s, before, found);
    NoCleanupYet(found);
    StepKeepsInv(found, caller);
    RunKeepsInv(Next(found, caller), after, end);
    RequestStands(Next(found, caller), after, end);
    if k :| 0 <= k < |after| && (after[k].CancelledBeforeStart? || after[k].CancelDelivered?) {
      if !end.faults.append && !end.callbackPending {
        CancelEndsWorker(Next(found, caller), after, end, k);
        CancelledIsRecorded(end);
      }
    }
  }

  // ---- nothing is cancelled unasked ----

  ghost predicate Unasked(s: State) {
    && !s.cancelRequested && s.waiting == 0 && s.cleanup == NoCleanup && s.phase != Done(true)
    && (forall i :: 0 <= i < |s.log| && s.log[i].job == s.job ==> s.log[i].status != Cancelled)
  }

  lemma UnaskedLatest(s: State)
    requires Unasked(s)
    ensures !LatestCancelled(s.log, s.job)
  {
    if LatestCancelled(s.log, s.job) {
      var j := LatestStands(s.log, s.job);
    }
  }

  lemma UnaskedStep(s: State, a: Action)
    requires Unasked(s) && Enabled(s, a) && !a.CallerBegins? && !a.LegacyCancel?
    ensures Unasked(Next(s, a))
  {
    hide LatestAnnotated;
    UnaskedLatest(s);
    hide Latest;
  }

  lemma {:induction false} UnaskedRun(s: State, actions: seq<Action>, end: State)
    requires Unasked(s) && Reaches(s, actions, end)
    requires forall k :: 0 <= k < |actions| ==> !actions[k].CallerBegins? && !actions[k].LegacyCancel?
    ensures Unasked(end)
    decreases |actions|
  {
    hide Unasked;
    hide Next;
    hide Enabled;
    if actions != [] {
      UnaskedStep(s, actions[0]);
      UnaskedRun(Next(s, actions[0]), actions[1..], end);
    }
  }

  /** A worker ends cancelled, and a job has a CANCELLED event, only if some cancel caller came. */
  lemma NothingIsCancelledUnasked(s: State, actions: seq<Action>, end: State)
    requires Submitted(s) && Reaches(s, actions, end)
    requires end.phase == Done(true) || exists i :: 0 <= i < |end.log| && end.log[i].job == end.job && end.log[i].status == Cancelled
    ensures exists k :: 0 <= k < |actions| && (actions[k].CallerBegins? || actions[k].LegacyCancel?)
  {
    if forall k :: 0 <= k < |actions| ==> !actions[k].CallerBegins? && !actions[k].LegacyCancel? {
      assert Unasked(s);
      UnaskedRun(s, actions, end);
    }
  }

  lemma {:induction false} CleanupStays(s: State, actions: seq<Action>, end: State)
    requires Reaches(s, actions, end) && s.cleanup != NoCleanup
    ensures end.cleanup != NoCleanup
    decreases |actions|
  {
    hide Next;
    hide Enabled;
    if actions != [] {
      CleanupStep(s, actions[0]);
      CleanupStays(Next(s, actions[0]), actions[1..], end);
    }
  }

  lemma CleanupStep(s: State, a: Action)
    requires Enabled(s, a) && s.cleanup != NoCleanup
    ensures Next(s, a).cleanup != NoCleanup
  {
    hide LatestCancelled;
    hide LatestAnnotated;
  }

  /** The caller makes sure of the cancellation: it resumes and finds the worker cancelled, or CANCELLED on
      record, and no append of its own fails; or it comes after the worker is done, finds CANCELLED on
      record and a child still mapped. */
  predicate Confirms(s: State, caller: Action) {
    || (caller == CallerResumes(Written) && (s.phase == Done(true) || LatestCancelled(s.log, s.job)))
    || (caller.CallerBegins? && s.phase.Done? && LatestCancelled(s.log, s.job) && s.child.Some?)
  }

  lemma ConfirmingStartsCleanup(s: State, caller: Action)
    requires Inv(s) && Enabled(s, caller) && Confirms(s, caller)
    ensures Next(s, caller).cleanup != NoCleanup
  {
    hide Ordered;
    hide Notes;
    hide Latest;
    LogGrows(s.log, Own(s, Cancelled), s.job);
  }

  /** A cancel caller makes up for whatever the worker and its callback failed to record: once one has
      resumed or come back as described above, then over any later interleaving the job's last event is
      CANCELLED and its cleanup exists. */
  lemma ConfirmedCancelsStand(s: State, before: seq<Action>, found: State, caller: Action, after: seq<Action>, end: State)
    requires Submitted(s) && Reaches(s, before, found) && Enabled(found, caller) && Confirms(found, caller)
    requires Reaches(Next(found, caller), after, end)
    ensures LatestCancelled(end.log, end.job) && end.cleanup != NoCleanup
  {
    hide Inv;
    hide Next;
    hide Enabled;
    hide LatestCancelled;
    SubmittedOk(s);
    RunKeepsInv(s, before, found);
    StepKeepsInv(found, caller);
    RunKeepsInv(Next(found, caller), after, end);
    ConfirmingStartsCleanup(found, caller);
    CleanupStays(Next(found, caller), after, end);
    CleanupMeansCancelled(end);
  }

  lemma CleanupMeansCancelled(s: State)
    requires Inv(s) && s.cleanup != NoCleanup
    ensures LatestCancelled(s.log, s.job)
  {
    hide LatestCancelled;
  }

  /** What a delivered cancellation leaves: a worker that reports a failure is past the handler that records
      it, so it ends cancelled with nothing on record; any other one records CANCELLED itself, and ends
      cancelled exactly when that append succeeds. */
  lemma DeliveredCancelsEnd(s: State, io: Io)
    requires Enabled(s, CancelDelivered(io))
    ensures
      var s1 := Next(s, CancelDelivered(io));
      && s1.phase.Done? && s1.callbackPending
      && (s.phase == ReportingFailure ==> s1.log == s.log && s1.phase.cancelled)
      && (s.phase != ReportingFailure ==>
            && s1.log == (if io == NotWritten then s.log else s.log + [Event(s.job, Cancelled, None)])
            && (s1.phase.cancelled <==> io == Written))
  {
  }

  // ---- what an attempt records ----

  /** A written attempt records what it found: an in-process worker exactly when no child is mapped, and a
      verified containment exactly when the killed child has exited and the whole tree was contained. Once it
      is durable the cleanup is over and the killed child is forgotten, but not another one mapped meanwhile. */
  lemma AttemptsTellTheTruth(s: State, a: Action)
    requires Enabled(s, a) && (a.AttemptInProcess? || a.KillReturns?) && a.io != NotWritten
    ensures
      var e := Next(s, a).log[|s.log|];
      && Next(s, a).log == s.log + [e] && e.job == s.job && e.status == Cancelled && e.note.Some?
      && (a.AttemptInProcess? ==> s.child.None? && e.note.value == InProcess)
      && (a.KillReturns? ==> s.cleanup.Killing? && e.note.value == Cli(s.cleanup.proc in s.exited && a.contained))
      && (a.io == Written ==> Next(s, a).cleanup == Finished)
      && (a.KillReturns? && a.io == Written ==> Next(s, a).child == if s.child == Some(s.cleanup.proc) then None else s.child)
  {
  }

  /** A failed attempt is repeated until three have been made. */
  lemma AttemptsAreThree(s: State, a: Action)
    requires Inv(s) && Enabled(s, a)
    requires a.KillRaises? || ((a.AttemptInProcess? || a.KillReturns?) && a.io != Written)
    ensures Next(s, a).cleanup == if s.cleanup.n == 3 then Finished else Attempt(s.cleanup.n + 1)
  {
    hide Ordered;
    hide Latest;
    hide Notes;
  }

  /** A mapped child gives way to another one only after it has exited, and is cleared only by name. */
  lemma RunningChildIsKept(s: State, p: nat)
    ensures Next(s, ClearChild(p)).child == if s.child == Some(p) then None else s.child
    ensures Next(s, NoteChild(p)).child ==
      if s.child.Some? && s.child.value != p && s.child.value !in s.exited then s.child else Some(p)
  {
  }

  // ---- how often a job is annotated ----

  predicate Annotates(a: Action) {
    a.AttemptInProcess? || a.KillReturns?
  }

  /** The action puts an annotation line into the file, whether or not its append succeeds. */
  predicate Writes(a: Action) {
    Annotates(a) && a.io != NotWritten
  }

  function WrittenAnnotations(actions: seq<Action>): nat {
    if actions == [] then 0 else (if Writes(actions[0]) then 1 else 0) + WrittenAnnotations(actions[1..])
  }

  lemma WorkerCounts(s: State, a: Action)
    requires Enabled(s, a)
    ensures Notes(WorkerNext(s, a).log, s.job) == Notes(s.log, s.job)
  {
    hide Notes;
    match a
    case WorkerStarts(io) => LogGrows(s.log, Own(s, Status.Running), s.job);
    case DispatchReturns(io, fallback) =>
      LogGrows(s.log, Own(s, Succeeded), s.job);
      LogGrows(Append(s, Own(s, Succeeded), io).log, Own(s, Status.Failed), s.job);
    case DispatchRaises(io) => LogGrows(s.log, Own(s, Status.Failed), s.job);
    case CancelDelivered(io) => LogGrows(s.log, Own(s, Cancelled), s.job);
    case _ =>
  }

  lemma CallerCounts(s: State, a: Action)
    requires Enabled(s, a)
    ensures Notes(CallerNext(s, a).log, s.job) == Notes(s.log, s.job)
  {
    hide Notes;
    hide LatestCancelled;
    hide LatestAnnotated;
    LogGrows(s.log, Own(s, Cancelled), s.job);
  }

  lemma CleanupCounts(s: State, a: Action)
    requires Enabled(s, a)
    ensures Notes(CleanupNext(s, a).log, s.job) == Notes(s.log, s.job) + if Writes(a) then 1 else 0
  {
    hide Notes;
    match a
    case AttemptInProcess(io) => LogGrows(s.log, Event(s.job, Cancelled, Some(InProcess)), s.job);
    case KillReturns(contained, io) =>
      LogGrows(s.log, Event(s.job, Cancelled, Some(Cli(s.cleanup.proc in s.exited && contained))), s.job);
    case _ =>
  }

  lemma WorldCounts(s: State, a: Action)
    requires Enabled(s, a)
    ensures Notes(WorldNext(s, a).log, s.job) == Notes(s.log, s.job)
  {
    hide Notes;
    if a.OtherJob? {
      LogGrows(s.log, a.event, s.job);
    }
  }

  lemma StepCounts(s: State, a: Action)
    requires Enabled(s, a)
    ensures Notes(Next(s, a).log, s.job) == Notes(s.log, s.job) + if Writes(a) then 1 else 0
  {
    hide Notes;
    hide WorkerNext;
    hide CallerNext;
    hide CleanupNext;
    hide WorldNext;
    WorkerCounts(s, a);
    CallerCounts(s, a);
    CleanupCounts(s, a);
    WorldCounts(s, a);
  }

  lemma {:induction false} RunCounts(s: State, actions: seq<Action>, end: State)
    requires Reaches(s, actions, end)
    ensures end.job == s.job && Notes(end.log, s.job) == Notes(s.log, s.job) + WrittenAnnotations(actions)
    decreases |actions|
  {
    hide Next;
    hide Notes;
    hide Enabled;
    if actions != [] {
      StepCounts(s, actions[0]);
      StepCarries(s, actions[0]);
      RunCounts(Next(s, actions[0]), actions[1..], end);
    }
  }

  lemma FinishedStep(s: State, a: Action)
    requires Enabled(s, a) && s.cleanup == Finished
    ensures !Annotates(a) && Next(s, a).cleanup == Finished
  {
  }

  lemma {:induction false} FinishedForGood(s: State, actions: seq<Action>, end: State, l: nat)
    requires Reaches(s, actions, end) && s.cleanup == Finished && l < |actions|
    ensures !Annotates(actions[l])
    decreases |actions|
  {
    hide Next;
    hide Enabled;
    FinishedStep(s, actions[0]);
    if l > 0 {
      FinishedForGood(Next(s, actions[0]), actions[1..], end, l - 1);
    }
  }

  lemma WrittenFinishes(s: State, a: Action)
    requires Enabled(s, a) && Annotates(a) && a.io == Written
    ensures Next(s, a).cleanup == Finished
  {
  }

  /** An annotation whose append succeeds is the last attempt. */
  lemma {:induction false} SuccessIsLast(s: State, actions: seq<Action>, end: State, k: nat, l: nat)
    requires Reaches(s, actions, end) && k < l < |actions| && Annotates(actions[k]) && actions[k].io == Written
    ensures !Annotates(actions[l])
    decreases |actions|
  {
    hide Next;
    hide Enabled;
    if k == 0 {
      WrittenFinishes(s, actions[0]);
      FinishedForGood(Next(s, actions[0]), actions[1..], end, l - 1);
    } else {
      SuccessIsLast(Next(s, actions[0]), actions[1..], end, k - 1, l - 1);
    }
  }

  ghost predicate WritesTwice(actions: seq<Action>) {
    exists k, l :: 0 <= k < l < |actions| && Writes(actions[k]) && Writes(actions[l])
  }

  lemma {:induction false} CountsOne(actions: seq<Action>)
    ensures WrittenAnnotations(actions) >= 1 <==> exists k :: 0 <= k < |actions| && Writes(actions[k])
  {
    if actions != [] {
      CountsOne(actions[1..]);
      assert forall k :: 0 <= k < |actions| - 1 ==> actions[1..][k] == actions[k + 1];
      if k :| 0 <= k < |actions| && Writes(actions[k]) {
        if k > 0 {
          assert Writes(actions[1..][k - 1]);
        }
      }
    }
  }

  lemma {:induction false} CountsTwo(actions: seq<Action>)
    ensures WrittenAnnotations(actions) >= 2 <==> WritesTwice(actions)
  {
    if actions != [] {
      var rest := actions[1..];
      CountsTwo(rest);
      CountsOne(rest);
      assert forall k :: 0 <= k < |rest| ==> rest[k] == actions[k + 1];
      if k, l :| 0 <= k < l < |actions| && Writes(actions[k]) && Writes(actions[l]) {
        assert Writes(rest[l - 1]);
        if k > 0 {
          assert Writes(rest[k - 1]);
        }
      }
      if WrittenAnnotations(actions) >= 2 {
        if Writes(actions[0]) {
          var k :| 0 <= k < |rest| && Writes(rest[k]);
          assert Writes(actions[k + 1]);
        } else {
          var k, l :| 0 <= k < l < |rest| && Writes(rest[k]) && Writes(rest[l]);
          assert Writes(actions[k + 1]) && Writes(actions[l + 1]);
        }
      }
    }
  }

  /** An attempt wrote its line after an earlier one had failed although its line was written. */
  ghost predicate WroteAfterDoubt(actions: seq<Action>) {
    exists k, l :: 0 <= k < l < |actions| && Annotates(actions[k]) && actions[k].io == WrittenThenFailed && Writes(actions[l])
  }

  /** A job has exactly one annotation per attempt whose line was written. It has at most one if and
      only if no attempt wrote after one that had failed although its line was written. */
  lemma AnnotatedOnceExactly(s: State, actions: seq<Action>, end: State)
    requires Submitted(s) && Reaches(s, actions, end)
    ensures Notes(end.log, end.job) == WrittenAnnotations(actions)
    ensures Notes(end.log, end.job) <= 1 <==> !WroteAfterDoubt(actions)
  {
    hide Notes;
    NoNotesYet(s);
    RunCounts(s, actions, end);
    CountsTwo(actions);
    if WritesTwice(actions) {
      var k, l :| 0 <= k < l < |actions| && Writes(actions[k]) && Writes(actions[l]);
      if actions[k].io == Written {
        SuccessIsLast(s, actions, end, k, l);
      }
      assert Annotates(actions[k]) && actions[k].io == WrittenThenFailed && Writes(actions[l]);
    }
    if WroteAfterDoubt(actions) {
      var k, l :| 0 <= k < l < |actions| && Annotates(actions[k]) && actions[k].io == WrittenThenFailed && Writes(actions[l]);
      assert Writes(actions[k]) && Writes(actions[l]);
    }
  }

  lemma NoNotesYet(s: State)
    requires Submitted(s)
    ensures Notes(s.log, s.job) == 0
  {
    NoOwnEvents(s.log[..|s.log| - 1], s.job);
  }
}

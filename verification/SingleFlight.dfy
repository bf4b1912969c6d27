/** The single-flight cloud probe cache (orchestrator/connectivity.py:237-298, 339-356), as a state
    machine. A step is what one thread does under the lock, or between two such sections. */
module SingleFlight {
  import opened Prelude

  datatype ProbeResult = ProbeResult(ok: bool, error: string)

  type FutureId = nat

  /** The thread that became leader: it has yet to hand the refresh over, or the hand-over failed and
      it has the marker to drop and the future to resolve, or it has nothing left to do. */
  datatype Caller = Submitting | Withdrawing | Excusing | Released

  /** The refresh itself, on a pool thread (or on the leader's own). */
  datatype Refresh = Unscheduled | Scheduled | Probing | Publishing(r: ProbeResult) | Resolving(r: ProbeResult) | Complete(r: ProbeResult)

  /** One future with its leader. `stray` marks a refresh that was queued although its submission
      raised. */
  datatype Flight = Flight(name: string, caller: Caller, refresh: Refresh, stray: bool, value: Option<ProbeResult>)

  datatype Probes = Probes(
    cache: map<string, (real, ProbeResult)>,
    inflight: map<string, FutureId>,
    futures: seq<Flight>)

  const OK_TTL := 60.0
  const FAIL_TTL := 15.0

  function NotScheduled(): ProbeResult {
    ProbeResult(false, "probe not scheduled")
  }

  // ---- the actions ----

  /** What `_cloud_acquire` answers. */
  datatype Acquired = Cached(r: ProbeResult) | Follow(f: FutureId) | Lead(f: FutureId)

  function Acquire(s: Probes, name: string, now: real): (Probes, Acquired) {
    if name in s.cache && s.cache[name].0 > now then (s, Cached(s.cache[name].1))
    else if name in s.inflight then (s, Follow(s.inflight[name]))
    else
      var f := |s.futures|;
      (s.(inflight := s.inflight[name := f],
          futures := s.futures + [Flight(name, Submitting, Unscheduled, false, None)]), Lead(f))
  }

  function DropMarker(s: Probes, f: FutureId): map<string, FutureId>
    requires f < |s.futures|
  {
    var name := s.futures[f].name;
    if name in s.inflight && s.inflight[name] == f then s.inflight - {name} else s.inflight
  }

  /** `set_result`, ignoring a future that is already resolved. */
  function SetResult(fl: Flight, r: ProbeResult): Flight {
    if fl.value.None? then fl.(value := Some(r)) else fl
  }

  datatype Action =
    | AcquireFor(name: string, now: real)
    | Submit(f: FutureId)
    | SubmitRaises(f: FutureId, queued: bool)
    | Withdraw(f: FutureId)
    | Excuse(f: FutureId)
    | StartProbe(f: FutureId)
    | ProbeEnds(f: FutureId, r: ProbeResult)
    | Publish(f: FutureId, now: real)
    | Resolve(f: FutureId)

  predicate Enabled(s: Probes, a: Action) {
    match a
    case AcquireFor(_, _) => true
    case Submit(f) => f < |s.futures| && s.futures[f].caller == Submitting
    case SubmitRaises(f, _) => f < |s.futures| && s.futures[f].caller == Submitting
    case Withdraw(f) => f < |s.futures| && s.futures[f].caller == Withdrawing
    case Excuse(f) => f < |s.futures| && s.futures[f].caller == Excusing
    case StartProbe(f) => f < |s.futures| && s.futures[f].refresh == Scheduled
    case ProbeEnds(f, _) => f < |s.futures| && s.futures[f].refresh == Probing
    case Publish(f, _) => f < |s.futures| && s.futures[f].refresh.Publishing?
    case Resolve(f) => f < |s.futures| && s.futures[f].refresh.Resolving?
  }

  /** The new form of the flight an action is about. */
  function Moved(fl: Flight, a: Action): Flight {
    match a
    case Submit(_) => fl.(caller := Released, refresh := Scheduled)
    case SubmitRaises(_, queued) => fl.(caller := Withdrawing, refresh := if queued then Scheduled else Unscheduled, stray := queued)
    case Withdraw(_) => fl.(caller := Excusing)
    case Excuse(_) => SetResult(fl, NotScheduled()).(caller := Released)
    case StartProbe(_) => fl.(refresh := Probing)
    case ProbeEnds(_, r) => fl.(refresh := Publishing(r))
    case Publish(_, _) => if fl.refresh.Publishing? then fl.(refresh := Resolving(fl.refresh.r)) else fl
    case Resolve(_) => if fl.refresh.Resolving? then SetResult(fl, fl.refresh.r).(refresh := Complete(fl.refresh.r)) else fl
    case AcquireFor(_, _) => fl
  }

  function Next(s: Probes, a: Action): Probes
    requires Enabled(s, a)
  {
    if a.AcquireFor? then Acquire(s, a.name, a.now).0
    else
      var s1 := s.(futures := s.futures[a.f := Moved(s.futures[a.f], a)]);
      match a
      case Withdraw(f) => s1.(inflight := DropMarker(s, f))
      case Publish(f, now) =>
        var r := s.futures[f].refresh.r;
        s1.(cache := s.cache[s.futures[f].name := (now + if r.ok then OK_TTL else FAIL_TTL, r)], inflight := DropMarker(s, f))
      case _ => s1
  }

  // ---- the invariant ----

  /** The leader is still before the point where it drops the marker. */
  predicate Holding(fl: Flight) {
    || fl.caller == Submitting || fl.caller == Withdrawing
    || fl.refresh == Scheduled || fl.refresh == Probing || fl.refresh.Publishing?
  }

  /** Some thread still has work to do that ends in resolving the future. */
  predicate Led(fl: Flight) {
    Holding(fl) || fl.caller == Excusing || fl.refresh.Resolving?
  }

  /** A stray refresh whose submitter has withdrawn its marker. */
  predicate MarkerGone(fl: Flight) {
    fl.stray && fl.caller != Withdrawing
  }

  ghost predicate FlightOk(fl: Flight) {
    && (fl.value.None? ==> Led(fl))
    && (fl.caller == Submitting ==> fl.refresh == Unscheduled && !fl.stray && fl.value.None?)
    && (fl.stray ==> fl.refresh != Unscheduled)
    && (fl.refresh != Unscheduled && !fl.stray ==> fl.caller == Released)
    && (fl.refresh == Unscheduled && fl.value.Some? ==> fl.value == Some(NotScheduled()) && fl.caller == Released)
    && (fl.value.Some? && !fl.stray && fl.refresh != Unscheduled ==> fl.refresh == Complete(fl.value.value))
    && (fl.value.Some? && fl.stray ==> fl.value == Some(NotScheduled()) || fl.refresh == Complete(fl.value.value))
  }

  ghost predicate Inv(s: Probes) {
    && (forall f :: 0 <= f < |s.futures| ==> FlightOk(s.futures[f]))
    && (forall n :: n in s.inflight ==>
          s.inflight[n] < |s.futures| && s.futures[s.inflight[n]].name == n && Holding(s.futures[s.inflight[n]])
          && !MarkerGone(s.futures[s.inflight[n]]))
    && (forall f :: 0 <= f < |s.futures| && Holding(s.futures[f]) && !s.futures[f].stray ==>
          s.futures[f].name in s.inflight && s.inflight[s.futures[f].name] == f)
  }

  lemma MovedOk(s: Probes, a: Action)
    requires Enabled(s, a) && !a.AcquireFor? && FlightOk(s.futures[a.f])
    ensures
      var before, after := s.futures[a.f], Moved(s.futures[a.f], a);
      && FlightOk(after) && after.name == before.name
      && (before.stray ==> after.stray)
      && (Holding(after) && !after.stray ==> Holding(before) && !before.stray)
      && (Holding(before) && !Holding(after) ==> a.Withdraw? || a.Publish?)
      && (before.value.Some? ==> after.value == before.value)
      && (a.Withdraw? || a.Publish? ==> after.stray || !Holding(after))
      && (MarkerGone(after) && !a.Withdraw? ==> MarkerGone(before))
  {
  }

  lemma AcquireKeepsInv(s: Probes, name: string, now: real)
    requires Inv(s)
    ensures Inv(Acquire(s, name, now).0)
  {
  }

  lemma MoveKeepsInv(s: Probes, f: FutureId, after: Flight)
    requires Inv(s) && f < |s.futures| && FlightOk(after) && after.name == s.futures[f].name
    requires Holding(after) && !after.stray ==> Holding(s.futures[f]) && !s.futures[f].stray
    requires Holding(s.futures[f]) ==> Holding(after)
    requires MarkerGone(after) ==> MarkerGone(s.futures[f])
    ensures Inv(s.(futures := s.futures[f := after]))
  {
    hide Holding;
    hide FlightOk;
    hide MarkerGone;
  }

  lemma DropKeepsInv(s: Probes, f: FutureId, after: Flight)
    requires Inv(s) && f < |s.futures| && FlightOk(after) && after.name == s.futures[f].name
    requires after.stray || !Holding(after)
    ensures Inv(s.(futures := s.futures[f := after], inflight := DropMarker(s, f)))
  {
    hide Holding;
    hide FlightOk;
    hide MarkerGone;
  }

  lemma StepKeepsInv(s: Probes, a: Action)
    requires Inv(s) && Enabled(s, a)
    ensures Inv(Next(s, a))
  {
    hide Holding;
    hide FlightOk;
    hide MarkerGone;
    hide Moved;
    hide Acquire;
    hide DropMarker;
    if a.AcquireFor? {
      AcquireKeepsInv(s, a.name, a.now);
    } else {
      MovedOk(s, a);
      var after := Moved(s.futures[a.f], a);
      if a.Withdraw? || a.Publish? {
        DropKeepsInv(s, a.f, after);
        CacheIsFree(s.(futures := s.futures[a.f := after], inflight := DropMarker(s, a.f)), Next(s, a).cache);
      } else {
        MoveKeepsInv(s, a.f, after);
      }
    }
  }

  lemma CacheIsFree(s: Probes, cache: map<string, (real, ProbeResult)>)
    requires Inv(s)
    ensures Inv(s.(cache := cache))
  {
    hide Holding;
    hide FlightOk;
    hide MarkerGone;
  }

  ghost predicate Reaches(s: Probes, actions: seq<Action>, end: Probes)
    decreases |actions|
  {
    if actions == [] then end == s
    else Enabled(s, actions[0]) && Reaches(Next(s, actions[0]), actions[1..], end)
  }

  lemma {:induction false} RunKeepsInv(s: Probes, actions: seq<Action>, end: Probes)
    requires Inv(s) && Reaches(s, actions, end)
    ensures Inv(end)
    decreases |actions|
  {
    hide Inv;
    hide Next;
    hide Enabled;
    if actions != [] {
      StepKeepsInv(s, actions[0]);
      RunKeepsInv(Next(s, actions[0]), actions[1..], end);
    }
  }

  function Initial(): Probes {
    Probes(map[], map[], [])
  }

  // ---- the promises ----

  /** Two probes of one backend never run together, in any interleaving, unless one of them was queued
      by a submission that raised. */
  lemma OneProbePerBackend(actions: seq<Action>, s: Probes, f: FutureId, g: FutureId)
    requires Reaches(Initial(), actions, s) && f < |s.futures| && g < |s.futures| && f != g
    requires s.futures[f].name == s.futures[g].name && s.futures[f].refresh == Probing && s.futures[g].refresh == Probing
    ensures s.futures[f].stray || s.futures[g].stray
  {
    RunKeepsInv(Initial(), actions, s);
  }

  /** Every unresolved future, and so every future that a caller may wait on, has a leader with a step
      it can take. */
  lemma UnresolvedFuturesAreLed(actions: seq<Action>, s: Probes, f: FutureId)
    requires Reaches(Initial(), actions, s) && f < |s.futures| && s.futures[f].value.None?
    ensures exists a: Action :: !a.AcquireFor? && a.f == f && Enabled(s, a)
  {
    RunKeepsInv(Initial(), actions, s);
    var fl := s.futures[f];
    assert FlightOk(fl);
    var a := match fl.caller
      case Submitting => Submit(f)
      case Withdrawing => Withdraw(f)
      case Excusing => Excuse(f)
      case Released =>
        match fl.refresh
        case Scheduled => StartProbe(f)
        case Probing => ProbeEnds(f, NotScheduled())
        case Publishing(_) => Publish(f, 0.0)
        case _ => Resolve(f);
    assert !a.AcquireFor? && a.f == f && Enabled(s, a);
  }

  /** A future is resolved once: its value never changes. */
  lemma {:induction false} ResolvedOnce(s: Probes, actions: seq<Action>, end: Probes, f: FutureId)
    requires Inv(s) && Reaches(s, actions, end) && f < |s.futures| && s.futures[f].value.Some?
    ensures f < |end.futures| && end.futures[f].value == s.futures[f].value
    decreases |actions|
  {
    hide Inv;
    hide Enabled;
    if actions != [] {
      StepKeepsInv(s, actions[0]);
      StepKeepsValue(s, actions[0], f);
      ResolvedOnce(Next(s, actions[0]), actions[1..], end, f);
    }
  }

  lemma StepKeepsValue(s: Probes, a: Action, f: FutureId)
    requires Inv(s) && Enabled(s, a) && f < |s.futures| && s.futures[f].value.Some?
    ensures f < |Next(s, a).futures| && Next(s, a).futures[f].value == s.futures[f].value
  {
    if !a.AcquireFor? {
      MovedOk(s, a);
    }
  }

  /** What a resolved future holds: the result its refresh ended with, or the excuse. The excuse stands
      when the refresh was never scheduled; when it was queued by a submission that raised, whichever of
      the two came first stands. */
  lemma ValueIsLeadersOutcome(actions: seq<Action>, s: Probes, f: FutureId)
    requires Reaches(Initial(), actions, s) && f < |s.futures| && s.futures[f].value.Some?
    ensures
      var fl := s.futures[f];
      || fl.refresh == Complete(fl.value.value)
      || (fl.value.value == ProbeResult(false, "probe not scheduled") && (fl.refresh == Unscheduled || fl.stray))
  {
    RunKeepsInv(Initial(), actions, s);
    assert FlightOk(s.futures[f]);
  }

  /** No in-flight marker outlives its leader: a marked future is unresolved by its refresh and its
      leader has yet to drop the marker. */
  lemma MarkersHaveLeaders(actions: seq<Action>, s: Probes, name: string)
    requires Reaches(Initial(), actions, s) && name in s.inflight
    ensures s.inflight[name] < |s.futures| && s.futures[s.inflight[name]].name == name && Holding(s.futures[s.inflight[name]])
  {
    RunKeepsInv(Initial(), actions, s);
  }

  lemma Unfold(s: Probes, a: Action, rest: seq<Action>, end: Probes)
    requires Enabled(s, a) && Reaches(Next(s, a), rest, end)
    ensures Reaches(s, [a] + rest, end)
  {
    assert ([a] + rest)[1..] == rest;
  }

  /** The exception in OneProbePerBackend is real: a submission that queues its refresh and then raises
      drops the marker, and the next caller starts a second probe. */
  lemma StrayRefreshBreaksSingleFlight(name: string) returns (actions: seq<Action>, end: Probes)
    ensures Reaches(Initial(), actions, end)
    ensures |end.futures| == 2 && end.futures[0].name == name && end.futures[1].name == name
    ensures end.futures[0].refresh == Probing && end.futures[1].refresh == Probing
  {
    var a1, a2, a3 := AcquireFor(name, 0.0), SubmitRaises(0, true), Withdraw(0);
    var a5, a6, a7 := Submit(1), StartProbe(0), StartProbe(1);
    var s1 := Next(Initial(), a1);
    var s2 := Next(s1, a2);
    var s3 := Next(s2, a3);
    assert name !in s3.inflight;
    var s4 := Next(s3, a1);
    var s5 := Next(s4, a5);
    var s6 := Next(s5, a6);
    end := Next(s6, a7);
    assert Reaches(end, [], end);
    Unfold(s6, a7, [], end);
    var r6 := [a7] + [];
    Unfold(s5, a6, r6, end);
    var r5 := [a6] + r6;
    Unfold(s4, a5, r5, end);
    var r4 := [a5] + r5;
    Unfold(s3, a1, r4, end);
    var r3 := [a1] + r4;
    Unfold(s2, a3, r3, end);
    var r2 := [a3] + r3;
    Unfold(s1, a2, r2, end);
    var r1 := [a2] + r2;
    Unfold(Initial(), a1, r1, end);
    actions := [a1] + r1;
  }
}

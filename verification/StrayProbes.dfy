/** When two probes of one backend can run together after all: exactly when a refresh that was queued by
    a raising submission is still to run or running. */
module StrayProbes {
  import opened Prelude
  import opened SingleFlight

  /** A refresh of this backend that its submitter has given up on, not past its probe yet. */
  predicate PendingStray(s: Probes, f: FutureId, name: string) {
    && f < |s.futures| && s.futures[f].name == name && s.futures[f].stray
    && (s.futures[f].refresh == Scheduled || s.futures[f].refresh == Probing)
  }

  ghost predicate HasPendingStray(s: Probes, name: string) {
    exists f: FutureId :: PendingStray(s, f, name)
  }

  predicate ProbesAt(s: Probes, f: FutureId, name: string) {
    f < |s.futures| && s.futures[f].name == name && s.futures[f].refresh == Probing
  }

  /** Two probes of one backend are running. */
  ghost predicate Clash(s: Probes, name: string) {
    exists f: FutureId, g: FutureId :: f != g && ProbesAt(s, f, name) && ProbesAt(s, g, name)
  }

  ghost predicate NoRaise(actions: seq<Action>) {
    forall k :: 0 <= k < |actions| ==> !actions[k].SubmitRaises?
  }

  /** The clock after an action that starts at time t; only some actions read it. */
  function TimeAfter(t: real, a: Action): real {
    if a.AcquireFor? then a.now else if a.Publish? then a.now else t
  }

  /** The clock never runs backwards from t on. */
  ghost predicate Clocked(t: real, actions: seq<Action>)
    decreases |actions|
  {
    actions == [] || (t <= TimeAfter(t, actions[0]) && Clocked(TimeAfter(t, actions[0]), actions[1..]))
  }

  /** Some continuation from time t on, in which no further submission raises, leads to a clash. */
  ghost predicate CanClash(s: Probes, name: string, t: real) {
    exists actions, end :: NoRaise(actions) && Clocked(t, actions) && Reaches(s, actions, end) && Clash(end, name)
  }

  // ---- a clash needs a stray that is pending now ----

  lemma StrayStepsBack(s: Probes, a: Action, f: FutureId, name: string)
    requires Inv(s) && Enabled(s, a) && !a.SubmitRaises? && PendingStray(Next(s, a), f, name)
    ensures PendingStray(s, f, name)
  {
    if !a.AcquireFor? {
      assert FlightOk(s.futures[a.f]);
    }
  }

  lemma {:induction false} StrayWasPending(s: Probes, actions: seq<Action>, end: Probes, f: FutureId, name: string)
    requires Inv(s) && NoRaise(actions) && Reaches(s, actions, end) && PendingStray(end, f, name)
    ensures PendingStray(s, f, name)
    decreases |actions|
  {
    hide Inv;
    hide Next;
    hide Enabled;
    hide PendingStray;
    if actions != [] {
      StepKeepsInv(s, actions[0]);
      assert forall k :: 0 <= k < |actions| - 1 ==> actions[1..][k] == actions[k + 1];
      StrayWasPending(Next(s, actions[0]), actions[1..], end, f, name);
      StrayStepsBack(s, actions[0], f, name);
    }
  }

  lemma ClashHasStray(s: Probes, name: string) returns (f: FutureId)
    requires Inv(s) && Clash(s, name)
    ensures PendingStray(s, f, name)
  {
    var g: FutureId, h: FutureId :| g != h && ProbesAt(s, g, name) && ProbesAt(s, h, name);
    f := if s.futures[g].stray then g else h;
  }

  // ---- a pending stray can be made to clash ----

  /** One action after another; none of them a raising submission, and none before its time. */
  lemma Prefix(s: Probes, a: Action, rest: seq<Action>, end: Probes, t: real)
    requires Enabled(s, a) && !a.SubmitRaises? && t <= TimeAfter(t, a)
    requires NoRaise(rest) && Clocked(TimeAfter(t, a), rest) && Reaches(Next(s, a), rest, end)
    ensures Reaches(s, [a] + rest, end) && NoRaise([a] + rest) && Clocked(t, [a] + rest)
  {
    hide Next;
    hide Enabled;
    Unfold(s, a, rest, end);
    assert ([a] + rest)[1..] == rest;
  }

  lemma ClashFrom(s: Probes, a: Action, name: string, t: real)
    requires Enabled(s, a) && !a.SubmitRaises? && t <= TimeAfter(t, a) && CanClash(Next(s, a), name, TimeAfter(t, a))
    ensures CanClash(s, name, t)
  {
    hide Next;
    hide Enabled;
    hide Clash;
    hide Clocked;
    var rest, end :| NoRaise(rest) && Clocked(TimeAfter(t, a), rest) && Reaches(Next(s, a), rest, end) && Clash(end, name);
    Prefix(s, a, rest, end, t);
  }

  lemma ClashNow(s: Probes, name: string, f: FutureId, g: FutureId, t: real)
    requires f != g && ProbesAt(s, f, name) && ProbesAt(s, g, name)
    ensures CanClash(s, name, t)
  {
    assert NoRaise([]) && Clocked(t, []) && Reaches(s, [], s) && Clash(s, name);
  }

  /** A second flight that is scheduled only has to start. */
  lemma StartSecond(s: Probes, name: string, f: FutureId, g: FutureId, t: real)
    requires f != g && ProbesAt(s, f, name) && g < |s.futures| && s.futures[g].name == name && s.futures[g].refresh == Scheduled
    ensures CanClash(s, name, t)
  {
    hide CanClash;
    ClashNow(Next(s, StartProbe(g)), name, f, g, t);
    ClashFrom(s, StartProbe(g), name, t);
  }

  lemma SubmitSecond(s: Probes, name: string, f: FutureId, g: FutureId, t: real)
    requires f != g && ProbesAt(s, f, name) && g < |s.futures| && s.futures[g].name == name && s.futures[g].caller == Submitting
    ensures CanClash(s, name, t)
  {
    hide CanClash;
    StartSecond(Next(s, Submit(g)), name, f, g, t);
    ClashFrom(s, Submit(g), name, t);
  }

  /** Without a marker, the next caller after the cached result has expired becomes a leader. */
  lemma NewLeader(s: Probes, name: string, f: FutureId, t: real)
    requires ProbesAt(s, f, name) && name !in s.inflight
    ensures CanClash(s, name, t)
  {
    hide CanClash;
    var now := if name in s.cache && s.cache[name].0 > t then s.cache[name].0 else t;
    var a := AcquireFor(name, now);
    SubmitSecond(Next(s, a), name, f, |s.futures|, now);
    ClashFrom(s, a, name, t);
  }

  lemma WithdrawThenLead(s: Probes, name: string, f: FutureId, g: FutureId, t: real)
    requires ProbesAt(s, f, name) && g < |s.futures| && s.futures[g].caller == Withdrawing
    requires s.futures[g].name == name && name in s.inflight && s.inflight[name] == g
    ensures CanClash(s, name, t)
  {
    hide CanClash;
    NewLeader(Next(s, Withdraw(g)), name, f, t);
    ClashFrom(s, Withdraw(g), name, t);
  }

  lemma PublishThenLead(s: Probes, name: string, f: FutureId, g: FutureId, t: real)
    requires f != g && ProbesAt(s, f, name) && g < |s.futures| && s.futures[g].refresh.Publishing?
    requires s.futures[g].name == name && name in s.inflight && s.inflight[name] == g
    ensures CanClash(s, name, t)
  {
    hide CanClash;
    NewLeader(Next(s, Publish(g, t)), name, f, t);
    ClashFrom(s, Publish(g, t), name, t);
  }

  /** While a stray probes, whatever the marker's leader is doing, a second probe can be started. */
  lemma StrayProbeClashes(s: Probes, name: string, f: FutureId, t: real)
    requires Inv(s) && ProbesAt(s, f, name) && s.futures[f].stray
    ensures CanClash(s, name, t)
  {
    hide CanClash;
    if name !in s.inflight {
      NewLeader(s, name, f, t);
    } else {
      var g := s.inflight[name];
      assert FlightOk(s.futures[g]) && Holding(s.futures[g]) && !MarkerGone(s.futures[g]);
      if s.futures[g].caller == Withdrawing {
        WithdrawThenLead(s, name, f, g, t);
      } else if s.futures[g].caller == Submitting {
        SubmitSecond(s, name, f, g, t);
      } else if s.futures[g].refresh == Scheduled {
        StartSecond(s, name, f, g, t);
      } else if s.futures[g].refresh == Probing {
        ClashNow(s, name, f, g, t);
      } else {
        PublishThenLead(s, name, f, g, t);
      }
    }
  }

  lemma PendingStrayClashes(s: Probes, name: string, f: FutureId, t: real)
    requires Inv(s) && PendingStray(s, f, name)
    ensures CanClash(s, name, t)
  {
    hide CanClash;
    hide Inv;
    if s.futures[f].refresh == Scheduled {
      StepKeepsInv(s, StartProbe(f));
      StrayProbeClashes(Next(s, StartProbe(f)), name, f, t);
      ClashFrom(s, StartProbe(f), name, t);
    } else {
      StrayProbeClashes(s, name, f, t);
    }
  }

  /** From any reachable state, at any time, with a clock that never runs backwards and no further raising
      submission, two probes of a backend can come to run together if and only if a stray refresh of it
      is still scheduled or probing. */
  lemma ProbesClashExactly(history: seq<Action>, s: Probes, name: string, t: real)
    requires Reaches(Initial(), history, s)
    ensures CanClash(s, name, t) <==> HasPendingStray(s, name)
  {
    hide Inv;
    hide Clash;
    hide Clocked;
    InitialOk();
    RunKeepsInv(Initial(), history, s);
    if CanClash(s, name, t) {
      var actions, end :| NoRaise(actions) && Clocked(t, actions) && Reaches(s, actions, end) && Clash(end, name);
      RunKeepsInv(s, actions, end);
      var f := ClashHasStray(end, name);
      StrayWasPending(s, actions, end, f, name);
    }
    if f: FutureId :| PendingStray(s, f, name) {
      PendingStrayClashes(s, name, f, t);
    }
  }

  lemma InitialOk()
    ensures Inv(Initial())
  {
  }
}

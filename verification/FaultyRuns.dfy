/** What the pipeline keeps, over whole runs, when audit writes fail. */
module FaultyRuns {
  import opened Prelude
  import opened LruCache
  import opened Observations
  import opened Equivocation
  import opened StateTransition
  import opened FaultyTransition
  import opened WatermarkInvariant
  import opened WatermarkRuns
  import WitnessGates

  // ---- what still holds ----

  /** The caches are in order and every held entry is filed under its own key and peer. */
  ghost predicate StoresOk(cfg: Config, c: Core) {
    && WellFormed(c.seen, cfg.maxCache) && WellFormed(c.last, cfg.maxCache) && WellFormed(c.buffer, cfg.maxCache)
    && (forall p :: p in c.buffer.val ==> PendingOk(c.buffer.val[p], p))
  }

  ghost predicate LoopOk(cfg: Config, c: Core, pending: Pending, p: string) {
    CachesOk(cfg, c) && PendingOk(pending, p) && SeenBelow(c, p, MarkOf(c, p))
  }

  ghost predicate AllAbout(outs: seq<Outcome>, p: string) {
    forall i :: 0 <= i < |outs| ==> outs[i].obs.peerId == p
  }

  ghost predicate MarkGrows(c: Core, c1: Core, p: string) {
    p in c.last.val ==> p in c1.last.val && AtOrBefore(c.last.val[p], c1.last.val[p])
  }

  /** What a drain keeps, raising or not. */
  ghost predicate Drained(cfg: Config, c: Core, c1: Core, left: Pending, p: string, outs: seq<Outcome>) {
    && LoopOk(cfg, c1, left, p) && OthersKept(c, c1, p) && c1.buffer == c.buffer
    && Chain(MarkOf(c, p), outs, MarkOf(c1, p)) && AllAbout(outs, p) && MarkGrows(c, c1, p)
  }

  lemma Untouched(cfg: Config, c: Core, c1: Core, left: Pending, p: string)
    requires LoopOk(cfg, c, left, p) && c1.seen == c.seen && c1.last == c.last && c1.buffer == c.buffer
    ensures Drained(cfg, c, c1, left, p, [])
  {
  }

  lemma PendingRest(pending: Pending, p: string, k: Key)
    requires PendingOk(pending, p) && k in pending
    ensures PendingOk(pending - {k}, p) && (pending - {k}).Keys < pending.Keys
  {
    assert k in pending.Keys && k !in (pending - {k}).Keys;
  }

  lemma NextIsNew(cfg: Config, c: Core, pending: Pending, p: string)
    requires LoopOk(cfg, c, pending, p) && p in c.last.val && NextOf(c.last.val[p]) in pending
    ensures
      var held := pending[NextOf(c.last.val[p])];
      held.obs.peerId == p && held.obs.Key() == NextOf(c.last.val[p]) && DedupOf(held.obs) !in c.seen.val
  {
  }

  /** One entry applied. */
  lemma TurnTracks(cfg: Config, c: Core, pending: Pending, p: string)
    requires LoopOk(cfg, c, pending, p) && p in c.last.val && NextOf(c.last.val[p]) in pending
    ensures
      var next := NextOf(c.last.val[p]);
      var (c1, o) := ApplyHeld(cfg, c, pending[next]);
      && LoopOk(cfg, c1, pending - {next}, p) && OthersKept(c, c1, p) && c1.buffer == c.buffer
      && MarkOf(c1, p) == Some(next) && o.obs.peerId == p && o.obs.Key() == next && Advances(o)
  {
    hide ApplyHeld;
    hide WellFormed;
    hide Mark;
    hide SeenBelow;
    hide OthersKept;
    hide PendingOk;
    var next := NextOf(c.last.val[p]);
    var held := pending[next];
    NextIsNew(cfg, c, pending, p);
    PendingRest(pending, p, next);
    CacheNonEmpty(c.last, p, cfg.maxCache);
    ApplyHeldEffect(cfg, c, held);
    var c1 := ApplyHeld(cfg, c, held).0;
    MarkEffect(cfg, c, held.obs, c1);
    MarkKeepsSeenBelow(cfg, c, held.obs, c1);
  }

  lemma DrainedNext(cfg: Config, c: Core, c1: Core, c2: Core, left: Pending, p: string, o: Outcome, os: seq<Outcome>)
    requires p in c.last.val && OthersKept(c, c1, p) && c1.buffer == c.buffer && MarkOf(c1, p) == Some(NextOf(c.last.val[p]))
    requires o.obs.peerId == p && o.obs.Key() == NextOf(c.last.val[p]) && Advances(o)
    requires Drained(cfg, c1, c2, left, p, os)
    ensures Drained(cfg, c, c2, left, p, [o] + os)
  {
    hide LoopOk;
    OthersKeptTransitive(c, c1, c2, p);
    assert ([o] + os)[1..] == os;
  }

  lemma {:induction false} FaultyLoopTracks(cfg: Config, c: Core, pending: Pending, p: string, now: real, fault: Fault)
    requires LoopOk(cfg, c, pending, p)
    ensures
      var (c1, left, outs, raised) := FaultyLoop(cfg, c, pending, p, now, fault);
      Drained(cfg, c, c1, left, p, outs)
    decreases pending.Keys
  {
    hide ApplyHeld;
    hide LoopOk;
    hide Drained;
    hide Record;
    hide Collect;
    Untouched(cfg, c, c, pending, p);
    if p in c.last.val && NextOf(c.last.val[p]) in pending {
      var next := NextOf(c.last.val[p]);
      var held, rest := pending[next], pending - {next};
      LoopRest(cfg, c, pending, p, next);
      NextIsNew(cfg, c, pending, p);
      Untouched(cfg, c, c, rest, p);
      if held.obs.IsStale(now) {
        StaleTurn(cfg, c, rest, p, Reject(held.obs, held.oldStatus, Stale));
      } else if FailsNow(fault) {
        Untouched(cfg, c, ApplyRaising(c, held.obs), pending, p);
      } else {
        TurnTracks(cfg, c, pending, p);
        var (c1, o) := ApplyHeld(cfg, c, held);
        FaultyLoopTracks(cfg, c1, rest, p, now, Tick(fault));
        var (c2, left, os, raised) := FaultyLoop(cfg, c1, rest, p, now, Tick(fault));
        DrainedNext(cfg, c, c1, c2, left, p, o, os);
      }
    }
  }

  lemma LoopRest(cfg: Config, c: Core, pending: Pending, p: string, k: Key)
    requires LoopOk(cfg, c, pending, p) && k in pending
    ensures LoopOk(cfg, c, pending - {k}, p) && (pending - {k}).Keys < pending.Keys
  {
    hide WellFormed;
    PendingRest(pending, p, k);
  }

  lemma StaleTurn(cfg: Config, c: Core, left: Pending, p: string, o: Outcome)
    requires Drained(cfg, c, c, left, p, []) && o.obs.peerId == p && !Advances(o)
    ensures Drained(cfg, c, c, left, p, [o])
  {
    hide LoopOk;
    assert [o][1..] == [];
  }

  /** What a call about p keeps, raising or not. */
  ghost predicate Steady(cfg: Config, c: Core, c1: Core, p: string, outs: seq<Outcome>) {
    && StoresOk(cfg, c1) && SeenBelow(c1, p, MarkOf(c1, p)) && OthersKept(c, c1, p)
    && Chain(MarkOf(c, p), outs, MarkOf(c1, p)) && AllAbout(outs, p) && MarkGrows(c, c1, p)
  }

  lemma StandsStill(cfg: Config, c: Core, c1: Core, p: string)
    requires StoresOk(cfg, c) && SeenBelow(c, p, MarkOf(c, p)) && c1.seen == c.seen && c1.last == c.last && c1.buffer == c.buffer
    ensures Steady(cfg, c, c1, p, [])
  {
  }

  lemma StandsStillOnce(cfg: Config, c: Core, c1: Core, p: string, o: Outcome)
    requires Steady(cfg, c, c1, p, []) && o.obs.peerId == p && !Advances(o)
    ensures Steady(cfg, c, c1, p, [o])
  {
    hide StoresOk;
    assert [o][1..] == [];
  }

  lemma StoredOk(cfg: Config, c: Core, buffer: Lru<string, Pending>, p: string, left: Pending)
    requires StoresOk(cfg, c) && p in c.buffer.val && PendingOk(left, p)
    requires buffer == Put(c.buffer, p, left) || buffer == StorePending(c.buffer, p, left)
    ensures WellFormed(buffer, cfg.maxCache) && (forall q :: q in buffer.val ==> PendingOk(buffer.val[q], q))
    ensures forall q :: q != p && q in buffer.val ==> q in c.buffer.val && buffer.val[q] == c.buffer.val[q]
  {
    hide PendingOk;
    if buffer == StorePending(c.buffer, p, left) {
      StorePendingEffect(cfg, c.buffer, p, left);
    }
  }

  lemma FlushSteady(cfg: Config, c: Core, p: string, now: real, fault: Fault)
    requires StoresOk(cfg, c) && SeenBelow(c, p, MarkOf(c, p))
    ensures
      var (c1, outs, raised) := FaultyFlush(cfg, c, p, now, fault);
      Steady(cfg, c, c1, p, outs)
  {
    hide FaultyLoop;
    hide StorePending;
    hide Put;
    hide WellFormed;
    hide PendingOk;
    hide SeenBelow;
    hide Chain;
    if p in c.buffer.val && c.buffer.val[p] != map[] {
      var (c1, left, outs, raised) := FaultyLoop(cfg, c, c.buffer.val[p], p, now, fault);
      FaultyLoopTracks(cfg, c, c.buffer.val[p], p, now, fault);
      var c2 := FaultyFlush(cfg, c, p, now, fault).0;
      StoredOk(cfg, c, c2.buffer, p, left);
      SeenElsewhere(c1, c2, p);
    } else {
      StandsStill(cfg, c, c, p);
    }
  }

  lemma SeenElsewhere(c: Core, c1: Core, p: string)
    requires c1.seen == c.seen && c1.last == c.last && SeenBelow(c, p, MarkOf(c, p))
    ensures SeenBelow(c1, p, MarkOf(c1, p)) && MarkOf(c1, p) == MarkOf(c, p)
  {
  }

  lemma MarkedSteady(cfg: Config, c: Core, obs: Observation, c1: Core, o: Outcome)
    requires StoresOk(cfg, c) && SeenBelow(c, obs.peerId, MarkOf(c, obs.peerId)) && cfg.maxCache >= 1
    requires Follows(MarkOf(c, obs.peerId), obs.Key()) && Marked(cfg, c, obs, c1)
    requires Advances(o) && o.obs == obs
    ensures Steady(cfg, c, c1, obs.peerId, [o])
  {
    hide Mark;
    hide PendingOk;
    hide WellFormed;
    hide SeenBelow;
    hide OthersKept;
    MarkEffect(cfg, c, obs, c1);
    MarkKeepsSeenBelow(cfg, c, obs, c1);
    assert StoresOk(cfg, c1);
    var outs := [o];
    assert outs[1..] == [];
    NoChain(Some(obs.Key()));
    assert Chain(MarkOf(c, obs.peerId), outs, MarkOf(c1, obs.peerId));
  }

  /** The gates on an observation that may move the watermark. */
  lemma ApplySteady(cfg: Config, c: Core, obs: Observation, oldStatus: string)
    requires StoresOk(cfg, c) && SeenBelow(c, obs.peerId, MarkOf(c, obs.peerId)) && cfg.maxCache >= 1
    requires Follows(MarkOf(c, obs.peerId), obs.Key())
    ensures
      var (c1, o) := Apply(cfg, c, obs, oldStatus);
      Steady(cfg, c, c1, obs.peerId, [o]) && o.obs == obs
  {
    hide Apply;
    hide Mark;
    hide StoresOk;
    hide SeenBelow;
    hide Steady;
    var (c1, o) := Apply(cfg, c, obs, oldStatus);
    ApplyEffect(cfg, c, obs, oldStatus);
    if o.accepted {
      MarkedSteady(cfg, c, obs, c1, o);
    } else {
      StandsStill(cfg, c, c1, obs.peerId);
      StandsStillOnce(cfg, c, c1, obs.peerId, o);
    }
  }

  lemma SteadyJoins(cfg: Config, c: Core, c1: Core, c2: Core, p: string, a: seq<Outcome>, b: seq<Outcome>)
    requires Steady(cfg, c, c1, p, a) && Steady(cfg, c1, c2, p, b)
    ensures Steady(cfg, c, c2, p, a + b)
  {
    hide StoresOk;
    hide SeenBelow;
    hide Chain;
    hide OthersKept;
    OthersKeptTransitive(c, c1, c2, p);
    ChainAppend(MarkOf(c, p), a, MarkOf(c1, p), b, MarkOf(c2, p));
  }

  lemma RebufferedSteady(cfg: Config, c: Core, c1: Core, p: string)
    requires StoresOk(cfg, c) && SeenBelow(c, p, MarkOf(c, p)) && c1 == c.(buffer := c1.buffer)
    requires WellFormed(c1.buffer, cfg.maxCache) && (forall q :: q in c1.buffer.val ==> PendingOk(c1.buffer.val[q], q))
    requires forall q :: q != p && q in c1.buffer.val ==> q in c.buffer.val && c1.buffer.val[q] == c.buffer.val[q]
    ensures Steady(cfg, c, c1, p, [])
  {
    hide WellFormed;
    hide PendingOk;
    SeenElsewhere(c, c1, p);
    NoChain(MarkOf(c, p));
  }

  lemma BufferSteady(cfg: Config, c: Core, obs: Observation, oldStatus: string, now: real)
    requires StoresOk(cfg, c) && SeenBelow(c, obs.peerId, MarkOf(c, obs.peerId))
    ensures
      var (c1, o) := BufferObservation(cfg, c, obs, oldStatus, now);
      && Steady(cfg, c, c1, obs.peerId, [o]) && !Advances(o) && o.obs == obs
      && (o.request.Some? ==> c1 == c)
  {
    hide Touch;
    hide Steady;
    hide StoresOk;
    hide SeenBelow;
    hide WellFormed;
    hide PendingOk;
    var p := obs.peerId;
    var (c1, o) := BufferObservation(cfg, c, obs, oldStatus, now);
    if c1 == c {
      StandsStill(cfg, c, c, p);
    } else {
      BufferTouched(cfg, c, obs, oldStatus);
      RebufferedSteady(cfg, c, c1, p);
    }
    StandsStillOnce(cfg, c, c1, p, o);
  }

  lemma BufferTouched(cfg: Config, c: Core, obs: Observation, oldStatus: string)
    requires StoresOk(cfg, c)
    ensures
      var p := obs.peerId;
      var buffer := Touch(c.buffer, p, PendingOf(c, p)[obs.Key() := Held(obs, oldStatus)], cfg.maxCache);
      && WellFormed(buffer, cfg.maxCache) && (forall q :: q in buffer.val ==> PendingOk(buffer.val[q], q))
      && (forall q :: q != p && q in buffer.val ==> q in c.buffer.val && buffer.val[q] == c.buffer.val[q])
  {
    hide Touch;
    hide WellFormed;
    var p := obs.peerId;
    TouchEffect(c.buffer, p, PendingOf(c, p)[obs.Key() := Held(obs, oldStatus)], cfg.maxCache);
  }

  lemma DirectSteady(cfg: Config, c: Core, obs: Observation, oldStatus: string, now: real, fault: Fault)
    requires StoresOk(cfg, c) && SeenBelow(c, obs.peerId, MarkOf(c, obs.peerId)) && cfg.maxCache >= 1
    requires Follows(MarkOf(c, obs.peerId), obs.Key())
    ensures
      var (c1, o) := Apply(cfg, c, obs, oldStatus);
      var (c2, os, raised) := FaultyFlush(cfg, c1, obs.peerId, now, fault);
      Steady(cfg, c, c2, obs.peerId, [o] + os)
  {
    hide Apply;
    hide FaultyFlush;
    hide StoresOk;
    hide SeenBelow;
    hide Chain;
    hide OthersKept;
    ApplySteady(cfg, c, obs, oldStatus);
    var (c1, o) := Apply(cfg, c, obs, oldStatus);
    FlushSteady(cfg, c1, obs.peerId, now, fault);
    var (c2, os, raised) := FaultyFlush(cfg, c1, obs.peerId, now, fault);
    SteadyJoins(cfg, c, c1, c2, obs.peerId, [o], os);
  }

  lemma RefusalSteady(cfg: Config, c: Core, o: Outcome, fault: Fault)
    requires StoresOk(cfg, c) && SeenBelow(c, o.obs.peerId, MarkOf(c, o.obs.peerId)) && !Advances(o)
    ensures Steady(cfg, c, Refuse(c, o, fault).0, o.obs.peerId, Refuse(c, o, fault).1)
  {
    hide Steady;
    StandsStill(cfg, c, c, o.obs.peerId);
    StandsStillOnce(cfg, c, c, o.obs.peerId, o);
  }

  /** One call, whichever of its audit writes fails: seen keys stay at or below the watermark, the
      watermark only moves up, by one within an epoch, along the advancing results that were audited, and
      other peers can only be evicted. */
  lemma FaultyCallIsSteady(cfg: Config, c: Core, obs: Observation, oldStatus: string, now: real, fault: Fault)
    requires StoresOk(cfg, c) && SeenBelow(c, obs.peerId, MarkOf(c, obs.peerId)) && cfg.maxCache >= 1
    ensures
      var (c1, outs, raised) := FaultyEvaluate(cfg, c, obs, oldStatus, now, fault);
      Steady(cfg, c, c1, obs.peerId, outs)
  {
    hide Apply;
    hide FaultyFlush;
    hide BufferObservation;
    hide Refuse;
    hide Steady;
    hide StoresOk;
    hide SeenBelow;
    hide Record;
    hide Collect;
    var p := obs.peerId;
    RefusalSteady(cfg, c, Reject(obs, oldStatus, Duplicate), fault);
    RefusalSteady(cfg, c, Reject(obs, oldStatus, Stale), fault);
    if DedupOf(obs) in c.seen.val || (p in c.last.val && AtOrBefore(obs.Key(), c.last.val[p])) {
    } else if p in c.last.val && obs.epoch == c.last.val[p].0 && obs.sequence > c.last.val[p].1 + 1 {
      BufferSteady(cfg, c, obs, oldStatus, now);
      RefusalSteady(cfg, c, BufferObservation(cfg, c, obs, oldStatus, now).1, fault);
    } else if !obs.IsStale(now) {
      StandsStill(cfg, c, ApplyRaising(c, obs), p);
      DirectSteady(cfg, c, obs, oldStatus, now, Tick(fault));
    }
  }

  // ---- what a raising call leaves ----

  /** A write that fails at the gates loses only what comes after it: the report is in the equivocation log
      and an observer caught by it is penalised, just as if the write had succeeded, while the caches, the
      buffer and the routing table are as before. */
  lemma RaisingGatesKeepTheirRecords(cfg: Config, c: Core, obs: Observation, oldStatus: string)
    ensures
      var raised, applied := ApplyRaising(c, obs), Apply(cfg, c, obs, oldStatus).0;
      && raised.equiv == applied.equiv && raised.scores == applied.scores
      && raised.seen == c.seen && raised.last == c.last && raised.buffer == c.buffer && raised.table == c.table
  {
    hide Collect;
    hide Retained;
    hide Record;
    hide WitnessGates.Score;
    hide WitnessGates.Signal;
    hide WitnessGates.HasQuorum;
    hide Touch;
  }

  /** A call whose first write fails has no result. It changes nothing unless its submission reached the
      gates, and then only their records. */
  lemma FirstWriteFailing(cfg: Config, c: Core, obs: Observation, oldStatus: string, now: real)
    ensures
      var (c1, outs, raised) := FaultyEvaluate(cfg, c, obs, oldStatus, now, Some(0));
      var (c2, normal) := Evaluate(cfg, c, obs, oldStatus, now);
      && normal != []
      && (normal[0].request.None? ==> !raised && outs == normal && c1 == c2)
      && (normal[0].request.Some? ==> raised && outs == [] && c1.(equiv := c.equiv, scores := c.scores) == c)
  {
    hide Flush;
    hide FaultyFlush;
    hide Touch;
    hide Collect;
    hide Retained;
    hide Record;
    hide WitnessGates.Score;
    hide WitnessGates.Signal;
    hide WitnessGates.HasQuorum;
  }

  // ---- runs with failing writes ----

  datatype FaultyCall = FaultyCall(call: Call, fault: Fault)

  function FaultyStep(cfg: Config, c: Core, fc: FaultyCall): (Core, seq<Outcome>) {
    var (c1, outs, raised) := FaultyEvaluate(cfg, c, fc.call.obs, fc.call.oldStatus, fc.call.now, fc.fault);
    (c1, outs)
  }

  /** A run, with every result that was decided and audited. */
  function FaultyRun(cfg: Config, c: Core, calls: seq<FaultyCall>): (Core, seq<Outcome>)
    decreases |calls|
  {
    if calls == [] then (c, [])
    else
      var (c1, o1) := FaultyStep(cfg, c, calls[0]);
      var (c2, o2) := FaultyRun(cfg, c1, calls[1..]);
      (c2, o1 + o2)
  }

  ghost predicate StaysCached(cfg: Config, c: Core, calls: seq<FaultyCall>, p: string)
    decreases |calls|
  {
    calls == [] ||
    (var c1 := FaultyStep(cfg, c, calls[0]).0;
     (p in c.last.val ==> p in c1.last.val) && StaysCached(cfg, c1, calls[1..], p))
  }

  lemma SeenOfOthers(c: Core, c1: Core, q: string, p: string)
    requires p != q && OthersKept(c, c1, q) && SeenBelow(c, p, MarkOf(c, p)) && (p in c.last.val ==> p in c1.last.val)
    ensures SeenBelow(c1, p, MarkOf(c1, p)) && MarkOf(c1, p) == MarkOf(c, p)
  {
    assert forall d: DedupKey :: d in c1.seen.val && d.0 == p ==> d in c.seen.val;
  }

  // A call about another peer needs no invariant of that peer to leave this one alone.

  ghost predicate Formed(cfg: Config, c: Core, c1: Core, p: string, outs: seq<Outcome>) {
    StoresOk(cfg, c1) && OthersKept(c, c1, p) && AllAbout(outs, p)
  }

  lemma {:induction false} FaultyLoopForm(cfg: Config, c: Core, pending: Pending, p: string, now: real, fault: Fault)
    requires CachesOk(cfg, c) && PendingOk(pending, p)
    ensures
      var (c1, left, outs, raised) := FaultyLoop(cfg, c, pending, p, now, fault);
      LoopKept(cfg, c, c1, left, p) && AllAbout(outs, p)
    decreases pending.Keys
  {
    hide PendingOk;
    hide ApplyHeld;
    hide OthersKept;
    hide CachesOk;
    hide Touch;
    hide LoopKept;
    hide Record;
    hide Collect;
    LoopKeptIdle(cfg, c, pending, p);
    if p in c.last.val && NextOf(c.last.val[p]) in pending {
      var next := NextOf(c.last.val[p]);
      var held, rest := pending[next], pending - {next};
      DropNext(pending, p, next);
      LoopKeptIdle(cfg, c, rest, p);
      if held.obs.IsStale(now) {
      } else if DedupOf(held.obs) in c.seen.val {
        var c1 := c.(last := Touch(c.last, p, held.obs.Key(), cfg.maxCache));
        TouchLastForm(cfg, c, p, held.obs.Key(), c1);
        FaultyLoopForm(cfg, c1, rest, p, now, fault);
        var (c2, left, os, raised) := FaultyLoop(cfg, c1, rest, p, now, fault);
        LoopKeptNext(cfg, c, c1, c2, left, p);
      } else if FailsNow(fault) {
        RaisingKeeps(cfg, c, held.obs, pending, p);
      } else {
        ApplyHeldForm(cfg, c, held);
        var (c1, o) := ApplyHeld(cfg, c, held);
        FaultyLoopForm(cfg, c1, rest, p, now, Tick(fault));
        var (c2, left, os, raised) := FaultyLoop(cfg, c1, rest, p, now, Tick(fault));
        LoopKeptNext(cfg, c, c1, c2, left, p);
      }
    }
  }

  lemma RaisingKeeps(cfg: Config, c: Core, obs: Observation, left: Pending, p: string)
    requires CachesOk(cfg, c) && PendingOk(left, p)
    ensures LoopKept(cfg, c, ApplyRaising(c, obs), left, p)
  {
    hide WellFormed;
    hide PendingOk;
  }

  lemma FlushFormed(cfg: Config, c: Core, p: string, now: real, fault: Fault)
    requires StoresOk(cfg, c)
    ensures
      var (c1, outs, raised) := FaultyFlush(cfg, c, p, now, fault);
      Formed(cfg, c, c1, p, outs)
  {
    hide FaultyLoop;
    hide StorePending;
    hide Put;
    hide WellFormed;
    hide PendingOk;
    if p in c.buffer.val && c.buffer.val[p] != map[] {
      var (c1, left, outs, raised) := FaultyLoop(cfg, c, c.buffer.val[p], p, now, fault);
      FaultyLoopForm(cfg, c, c.buffer.val[p], p, now, fault);
      StoredOk(cfg, c, FaultyFlush(cfg, c, p, now, fault).0.buffer, p, left);
    }
  }

  lemma DirectFormed(cfg: Config, c: Core, obs: Observation, oldStatus: string, now: real, fault: Fault)
    requires StoresOk(cfg, c)
    ensures
      var (c1, o) := Apply(cfg, c, obs, oldStatus);
      var (c2, os, raised) := FaultyFlush(cfg, c1, obs.peerId, now, fault);
      Formed(cfg, c, c2, obs.peerId, [o] + os)
  {
    hide Apply;
    hide FaultyFlush;
    hide WellFormed;
    hide PendingOk;
    hide OthersKept;
    ApplyForm(cfg, c, obs, oldStatus);
    ApplyEffect(cfg, c, obs, oldStatus);
    var c1 := Apply(cfg, c, obs, oldStatus).0;
    FlushFormed(cfg, c1, obs.peerId, now, fault);
    OthersKeptTransitive(c, c1, FaultyFlush(cfg, c1, obs.peerId, now, fault).0, obs.peerId);
  }

  lemma BufferFormed(cfg: Config, c: Core, obs: Observation, oldStatus: string, now: real)
    requires StoresOk(cfg, c)
    ensures
      var (c1, o) := BufferObservation(cfg, c, obs, oldStatus, now);
      Formed(cfg, c, c1, obs.peerId, [o])
  {
    hide Touch;
    hide PendingOk;
    hide WellFormed;
    BufferTouched(cfg, c, obs, oldStatus);
  }

  lemma UnchangedFormed(cfg: Config, c: Core, c1: Core, p: string, outs: seq<Outcome>)
    requires StoresOk(cfg, c) && c1.seen == c.seen && c1.last == c.last && c1.buffer == c.buffer && AllAbout(outs, p)
    ensures Formed(cfg, c, c1, p, outs)
  {
    hide WellFormed;
    hide PendingOk;
  }

  lemma FaultyCallIsFormed(cfg: Config, c: Core, obs: Observation, oldStatus: string, now: real, fault: Fault)
    requires StoresOk(cfg, c)
    ensures
      var (c1, outs, raised) := FaultyEvaluate(cfg, c, obs, oldStatus, now, fault);
      Formed(cfg, c, c1, obs.peerId, outs)
  {
    hide Apply;
    hide FaultyFlush;
    hide BufferObservation;
    hide Formed;
    hide StoresOk;
    hide Record;
    hide Collect;
    var p := obs.peerId;
    UnchangedFormed(cfg, c, c, p, []);
    UnchangedFormed(cfg, c, c, p, [Reject(obs, oldStatus, Duplicate)]);
    UnchangedFormed(cfg, c, c, p, [Reject(obs, oldStatus, Stale)]);
    UnchangedFormed(cfg, c, ApplyRaising(c, obs), p, []);
    BufferFormed(cfg, c, obs, oldStatus, now);
    AuditedBufferIdle(cfg, c, obs, oldStatus, now);
    DirectFormed(cfg, c, obs, oldStatus, now, Tick(fault));
  }

  /** The buffer changes only when nothing is audited. */
  lemma AuditedBufferIdle(cfg: Config, c: Core, obs: Observation, oldStatus: string, now: real)
    ensures
      var (c1, o) := BufferObservation(cfg, c, obs, oldStatus, now);
      o.request.Some? ==> c1 == c
  {
    hide Touch;
  }

  lemma FaultyStepTracks(cfg: Config, c: Core, fc: FaultyCall, p: string)
    requires StoresOk(cfg, c) && SeenBelow(c, p, MarkOf(c, p)) && cfg.maxCache >= 1
    requires p in c.last.val ==> p in FaultyStep(cfg, c, fc).0.last.val
    ensures
      var (c1, outs) := FaultyStep(cfg, c, fc);
      && StoresOk(cfg, c1) && SeenBelow(c1, p, MarkOf(c1, p))
      && Chain(MarkOf(c, p), About(outs, p), MarkOf(c1, p))
  {
    hide FaultyEvaluate;
    hide StoresOk;
    hide SeenBelow;
    hide Chain;
    hide OthersKept;
    var q := fc.call.obs.peerId;
    var (c1, outs) := FaultyStep(cfg, c, fc);
    FaultyCallIsFormed(cfg, c, fc.call.obs, fc.call.oldStatus, fc.call.now, fc.fault);
    AboutOne(outs, q, p);
    if p == q {
      FaultyCallIsSteady(cfg, c, fc.call.obs, fc.call.oldStatus, fc.call.now, fc.fault);
    } else {
      SeenOfOthers(c, c1, q, p);
      NoChain(MarkOf(c, p));
    }
  }

  lemma NoChain(mark: Option<Key>)
    ensures Chain(mark, [], mark)
  {
  }

  lemma {:induction false} FaultyRunTracks(cfg: Config, c: Core, calls: seq<FaultyCall>, p: string)
    requires StoresOk(cfg, c) && SeenBelow(c, p, MarkOf(c, p)) && cfg.maxCache >= 1 && StaysCached(cfg, c, calls, p)
    ensures
      var (c1, outs) := FaultyRun(cfg, c, calls);
      && StoresOk(cfg, c1) && SeenBelow(c1, p, MarkOf(c1, p))
      && Chain(MarkOf(c, p), About(outs, p), MarkOf(c1, p))
    decreases |calls|
  {
    hide FaultyStep;
    hide StoresOk;
    hide SeenBelow;
    if calls == [] {
      NoChain(MarkOf(c, p));
    } else {
      FaultyStepTracks(cfg, c, calls[0], p);
      var (c1, o1) := FaultyStep(cfg, c, calls[0]);
      FaultyRunTracks(cfg, c1, calls[1..], p);
      var (c2, o2) := FaultyRun(cfg, c1, calls[1..]);
      AboutAppend(o1, o2, p);
      ChainAppend(MarkOf(c, p), About(o1, p), MarkOf(c1, p), About(o2, p), MarkOf(c2, p));
    }
  }

  /** Monotonicity survives failing audit writes: over any run in which the peer stays cached, whichever
      writes fail, any two accepted observations of the peer are strictly ordered by the monotonic gate. */
  lemma AcceptedAreOrderedDespiteFaults(cfg: Config, c: Core, calls: seq<FaultyCall>, p: string, i: nat, j: nat)
    requires StoresOk(cfg, c) && SeenBelow(c, p, MarkOf(c, p)) && cfg.maxCache >= 1 && StaysCached(cfg, c, calls, p)
    requires i < j < |About(FaultyRun(cfg, c, calls).1, p)|
    requires About(FaultyRun(cfg, c, calls).1, p)[i].accepted && About(FaultyRun(cfg, c, calls).1, p)[j].accepted
    ensures
      var outs := About(FaultyRun(cfg, c, calls).1, p);
      && IsNewer(outs[i].obs, outs[j].obs) && !IsNewer(outs[j].obs, outs[i].obs)
      && (outs[i].obs.epoch < outs[j].obs.epoch
          || (outs[i].obs.epoch == outs[j].obs.epoch && outs[i].obs.sequence < outs[j].obs.sequence))
  {
    hide FaultyRun;
    hide StoresOk;
    hide SeenBelow;
    hide StaysCached;
    FaultyRunTracks(cfg, c, calls, p);
    var (c1, outs) := FaultyRun(cfg, c, calls);
    ChainAscends(MarkOf(c, p), About(outs, p), MarkOf(c1, p), j);
  }

  /** The fresh pipeline qualifies. */
  lemma FreshIsSteady(cfg: Config, p: string)
    ensures StoresOk(cfg, Fresh()) && SeenBelow(Fresh(), p, MarkOf(Fresh(), p))
  {
  }

  // ---- the entry that was put back ----

  /** A write that fails during the drain concerns the entry directly above the watermark. It is still in
      the buffer, one closer to the watermark than without faults, if and only if it has not expired; an
      expired one is lost without a record. */
  lemma {:induction false} RestoredEntryIsNext(cfg: Config, c: Core, pending: Pending, p: string, now: real, fault: Fault)
    requires LoopOk(cfg, c, pending, p)
    ensures
      var (c1, left, outs, raised) := FaultyLoop(cfg, c, pending, p, now, fault);
      raised ==>
        && p in c1.last.val && left.Keys <= pending.Keys
        && NextOf(c1.last.val[p]) in pending
        && (NextOf(c1.last.val[p]) in left <==> !pending[NextOf(c1.last.val[p])].obs.IsStale(now))
    decreases pending.Keys
  {
    hide ApplyHeld;
    hide LoopOk;
    hide Record;
    hide Collect;
    if p in c.last.val && NextOf(c.last.val[p]) in pending {
      var next := NextOf(c.last.val[p]);
      var held, rest := pending[next], pending - {next};
      LoopRest(cfg, c, pending, p, next);
      NextIsNew(cfg, c, pending, p);
      if !held.obs.IsStale(now) && !FailsNow(fault) {
        TurnTracks(cfg, c, pending, p);
        RestoredEntryIsNext(cfg, ApplyHeld(cfg, c, held).0, rest, p, now, Tick(fault));
      }
    }
  }

  /** A drain never takes a key at or below the watermark. */
  lemma {:induction false} LoopKeepsPassed(cfg: Config, c: Core, pending: Pending, p: string, now: real, k: Key)
    requires LoopOk(cfg, c, pending, p) && k in pending && p in c.last.val && AtOrBefore(k, c.last.val[p])
    ensures k in FlushLoop(cfg, c, pending, p, now).1
    decreases pending.Keys
  {
    hide ApplyHeld;
    hide LoopOk;
    hide Touch;
    if NextOf(c.last.val[p]) in pending {
      var next := NextOf(c.last.val[p]);
      var held, rest := pending[next], pending - {next};
      LoopRest(cfg, c, pending, p, next);
      NextIsNew(cfg, c, pending, p);
      if !held.obs.IsStale(now) {
        TurnTracks(cfg, c, pending, p);
        LoopKeepsPassed(cfg, ApplyHeld(cfg, c, held).0, rest, p, now, k);
      }
    }
  }

  lemma {:induction false} LoopLeavesSubset(cfg: Config, c: Core, pending: Pending, p: string, now: real)
    ensures FlushLoop(cfg, c, pending, p, now).1.Keys <= pending.Keys
    decreases pending.Keys
  {
    hide ApplyHeld;
    hide Touch;
    if p in c.last.val && NextOf(c.last.val[p]) in pending {
      var next := NextOf(c.last.val[p]);
      var held, rest := pending[next], pending - {next};
      assert next in pending.Keys && next !in rest.Keys;
      if !held.obs.IsStale(now) {
        if DedupOf(held.obs) in c.seen.val {
          LoopLeavesSubset(cfg, c.(last := Touch(c.last, p, held.obs.Key(), cfg.maxCache)), rest, p, now);
        } else {
          LoopLeavesSubset(cfg, ApplyHeld(cfg, c, held).0, rest, p, now);
        }
      }
    }
  }

  lemma LoopTakesNext(cfg: Config, c: Core, pending: Pending, p: string, now: real)
    requires p in c.last.val && NextOf(c.last.val[p]) in pending
    ensures NextOf(c.last.val[p]) !in FlushLoop(cfg, c, pending, p, now).1
  {
    hide ApplyHeld;
    hide Touch;
    var next := NextOf(c.last.val[p]);
    var held, rest := pending[next], pending - {next};
    LoopLeavesSubset(cfg, c.(last := Touch(c.last, p, held.obs.Key(), cfg.maxCache)), rest, p, now);
    LoopLeavesSubset(cfg, ApplyHeld(cfg, c, held).0, rest, p, now);
  }

  /** What becomes of an entry that stands directly above the watermark when its key is submitted again
      and no write fails: it leaves the buffer if and only if the new submission is not accepted. An
      accepted one takes the watermark past it, and the entry keeps its slot without ever being applied. */
  lemma RestoredEntryStrandsExactly(cfg: Config, c: Core, obs: Observation, oldStatus: string, now: real)
    requires StoresOk(cfg, c) && SeenBelow(c, obs.peerId, MarkOf(c, obs.peerId)) && cfg.maxCache >= 1
    requires obs.peerId in c.last.val && obs.Key() == NextOf(c.last.val[obs.peerId]) && !obs.IsStale(now)
    requires obs.Key() in PendingOf(c, obs.peerId)
    ensures
      var (c1, outs) := Evaluate(cfg, c, obs, oldStatus, now);
      && outs != [] && outs[0].obs == obs
      && (obs.Key() in PendingOf(c1, obs.peerId) <==> outs[0].accepted)
  {
    hide Apply;
    hide FlushLoop;
    hide StorePending;
    hide WellFormed;
    hide BufferObservation;
    var p, k := obs.peerId, obs.Key();
    assert DedupOf(obs) !in c.seen.val;
    var (c1, o) := Apply(cfg, c, obs, oldStatus);
    ApplyEffect(cfg, c, obs, oldStatus);
    ApplySteady(cfg, c, obs, oldStatus);
    var pending := c1.buffer.val[p];
    var (c2, left, os) := FlushLoop(cfg, c1, pending, p, now);
    StorePendingEffect(cfg, c1.buffer, p, left);
    AppliedMark(cfg, c, obs, oldStatus);
    FlushLoopForm(cfg, c1, pending, p, now);
    if o.accepted {
      LoopKeepsPassed(cfg, c1, pending, p, now, k);
    } else {
      LoopTakesNext(cfg, c1, pending, p, now);
    }
  }

  lemma AppliedMark(cfg: Config, c: Core, obs: Observation, oldStatus: string)
    requires StoresOk(cfg, c) && cfg.maxCache >= 1
    ensures
      var (c1, o) := Apply(cfg, c, obs, oldStatus);
      MarkOf(c1, obs.peerId) == if o.accepted then Some(obs.Key()) else MarkOf(c, obs.peerId)
  {
    hide Apply;
    hide Mark;
    var (c1, o) := Apply(cfg, c, obs, oldStatus);
    ApplyEffect(cfg, c, obs, oldStatus);
    if o.accepted {
      MarkEffect(cfg, c, obs, c1);
    }
  }
}

/** Which submissions reach the gates, which are held back, and how many are held
    (orchestrator/state_transition_manager.py:168-289). */
module AdmissionRuns {
  import opened Prelude
  import opened LruCache
  import opened Observations
  import opened StateTransition
  import opened WatermarkInvariant
  import opened WatermarkRuns
  import opened DecisionRuns

  /** The observation's time to live has run out. */
  ghost predicate Expired(obs: Observation, now: real) {
    obs.ttl.Some? && obs.ttl.value >= 0 && obs.timestamp + obs.ttl.value as real < now
  }

  /** What a submission gets at first, by its key and the peer's watermark. */
  ghost predicate AdmittedAs(cfg: Config, mark: Option<Key>, pending: Pending, obs: Observation, now: real, o: Outcome) {
    var next := mark.None? || obs.epoch > mark.value.0 || (obs.epoch == mark.value.0 && obs.sequence == mark.value.1 + 1);
    var ahead := mark.Some? && obs.epoch == mark.value.0 && obs.sequence > mark.value.1 + 1;
    var key := (obs.epoch, obs.sequence);
    && (Gated(o) <==> next && !Expired(obs, now))
    && (o.decision == Buffered <==>
          ahead && !Expired(obs, now) && if key in pending then pending[key].obs == obs else |pending| < cfg.bufferMax)
    && (!Gated(o) && o.decision != Buffered ==> (o.decision == Duplicate || o.decision == Stale) && !o.accepted)
    && (ahead && !Expired(obs, now) && key in pending && pending[key].obs != obs ==> o.decision == Duplicate)
  }

  lemma AheadIsNew(c: Core, obs: Observation)
    requires Tracked(c, obs.peerId)
    requires obs.peerId in c.last.val ==> !AtOrBefore(obs.Key(), c.last.val[obs.peerId])
    ensures DedupOf(obs) !in c.seen.val
  {
  }

  lemma ApplyIsGated(cfg: Config, c: Core, obs: Observation, oldStatus: string)
    ensures Gated(Apply(cfg, c, obs, oldStatus).1)
  {
    hide Apply;
    ApplyJudged(cfg, c, obs, oldStatus);
  }

  /** Admission, exactly. In a tracked state a submission reaches the gates if and only if it has not
      expired and is the first of its peer, of a later epoch, or the direct successor of the watermark; it
      is held back if and only if it is further ahead in the epoch, has not expired, and either is held
      already or finds room; a conflicting one for a held key is a duplicate; everything else is refused. */
  lemma AdmissionIsExact(cfg: Config, c: Core, obs: Observation, oldStatus: string, now: real)
    requires WellFormedCore(cfg, c) && Tracked(c, obs.peerId)
    ensures
      var outs := Evaluate(cfg, c, obs, oldStatus, now).1;
      outs != [] && AdmittedAs(cfg, MarkOf(c, obs.peerId), PendingOf(c, obs.peerId), obs, now, outs[0])
  {
    hide Apply;
    hide Flush;
    hide Touch;
    hide WellFormedCore;
    hide Tracked;
    ExpiresAfterItsDeadline(obs, now);
    ApplyIsGated(cfg, c, obs, oldStatus);
    if obs.peerId in c.last.val ==> !AtOrBefore(obs.Key(), c.last.val[obs.peerId]) {
      AheadIsNew(c, obs);
    }
  }

  /** Holding back changes nothing else: the submission is filed under its key when that is free, and an
      entry that is already there keeps its first payload. */
  lemma HeldIsFiled(cfg: Config, c: Core, obs: Observation, oldStatus: string, now: real)
    requires WellFormedCore(cfg, c) && Tracked(c, obs.peerId) && cfg.maxCache >= 1
    requires Evaluate(cfg, c, obs, oldStatus, now).1[0].decision == Buffered
    ensures
      var c1 := Evaluate(cfg, c, obs, oldStatus, now).0;
      var pending, key := PendingOf(c, obs.peerId), (obs.epoch, obs.sequence);
      && c1.(buffer := c.buffer) == c
      && PendingOf(c1, obs.peerId) == if key in pending then pending else pending[key := Held(obs, oldStatus)]
  {
    hide Evaluate;
    hide BufferObservation;
    hide WellFormed;
    HeldByBuffer(cfg, c, obs, oldStatus, now);
    FiledInBuffer(cfg, c, obs, oldStatus, now);
  }

  lemma HeldByBuffer(cfg: Config, c: Core, obs: Observation, oldStatus: string, now: real)
    requires Evaluate(cfg, c, obs, oldStatus, now).1[0].decision == Buffered
    ensures Evaluate(cfg, c, obs, oldStatus, now).0 == BufferObservation(cfg, c, obs, oldStatus, now).0
    ensures BufferObservation(cfg, c, obs, oldStatus, now).1.decision == Buffered
  {
    hide Apply;
    hide Flush;
    hide BufferObservation;
    ApplyIsGated(cfg, c, obs, oldStatus);
  }

  lemma FiledInBuffer(cfg: Config, c: Core, obs: Observation, oldStatus: string, now: real)
    requires WellFormedCore(cfg, c) && cfg.maxCache >= 1
    requires BufferObservation(cfg, c, obs, oldStatus, now).1.decision == Buffered
    ensures
      var c1 := BufferObservation(cfg, c, obs, oldStatus, now).0;
      var pending, key := PendingOf(c, obs.peerId), (obs.epoch, obs.sequence);
      && c1.(buffer := c.buffer) == c
      && PendingOf(c1, obs.peerId) == if key in pending then pending else pending[key := Held(obs, oldStatus)]
  {
    hide Touch;
    hide WellFormed;
    TouchEffect(c.buffer, obs.peerId, PendingOf(c, obs.peerId)[obs.Key() := Held(obs, oldStatus)], cfg.maxCache);
  }

  // ---- how many are held ----

  ghost predicate Bounded(cfg: Config, c: Core) {
    forall p :: p in c.buffer.val ==> |c.buffer.val[p]| <= Max(cfg.bufferMax, 0)
  }

  lemma {:induction false} LoopLeavesFewer(cfg: Config, c: Core, pending: Pending, p: string, now: real)
    ensures |FlushLoop(cfg, c, pending, p, now).1| <= |pending|
    decreases pending.Keys
  {
    hide ApplyHeld;
    hide Touch;
    if p in c.last.val && NextOf(c.last.val[p]) in pending {
      var next := NextOf(c.last.val[p]);
      var held, rest := pending[next], pending - {next};
      assert next in pending.Keys && next !in rest.Keys;
      assert rest.Keys == pending.Keys - {next};
      assert |rest.Keys| == |rest| && |pending.Keys| == |pending|;
      if !held.obs.IsStale(now) {
        if DedupOf(held.obs) in c.seen.val {
          LoopLeavesFewer(cfg, c.(last := Touch(c.last, p, held.obs.Key(), cfg.maxCache)), rest, p, now);
        } else {
          LoopLeavesFewer(cfg, ApplyHeld(cfg, c, held).0, rest, p, now);
        }
      }
    }
  }

  lemma FlushBounded(cfg: Config, c: Core, p: string, now: real)
    requires WellFormedCore(cfg, c) && Bounded(cfg, c)
    ensures Bounded(cfg, Flush(cfg, c, p, now).0)
  {
    hide FlushLoop;
    hide StorePending;
    hide WellFormed;
    if p in c.buffer.val && c.buffer.val[p] != map[] {
      var pending := c.buffer.val[p];
      LoopLeavesFewer(cfg, c, pending, p, now);
      FlushLoopForm(cfg, c, pending, p, now);
      StorePendingEffect(cfg, c.buffer, p, FlushLoop(cfg, c, pending, p, now).1);
    }
  }

  lemma BufferBounded(cfg: Config, c: Core, obs: Observation, oldStatus: string, now: real)
    requires WellFormedCore(cfg, c) && Bounded(cfg, c)
    ensures Bounded(cfg, BufferObservation(cfg, c, obs, oldStatus, now).0)
  {
    hide Touch;
    hide WellFormed;
    var pending := PendingOf(c, obs.peerId);
    var more := pending[obs.Key() := Held(obs, oldStatus)];
    assert more.Keys == pending.Keys + {obs.Key()};
    assert |more| == |more.Keys| && |pending| == |pending.Keys|;
    TouchEffect(c.buffer, obs.peerId, more, cfg.maxCache);
  }

  lemma DirectBounded(cfg: Config, c: Core, obs: Observation, oldStatus: string, now: real)
    requires WellFormedCore(cfg, c) && Bounded(cfg, c)
    ensures Bounded(cfg, Flush(cfg, Apply(cfg, c, obs, oldStatus).0, obs.peerId, now).0)
  {
    hide Apply;
    hide Flush;
    hide WellFormed;
    ApplyForm(cfg, c, obs, oldStatus);
    FlushBounded(cfg, Apply(cfg, c, obs, oldStatus).0, obs.peerId, now);
  }

  lemma StepBounded(cfg: Config, c: Core, call: Call)
    requires WellFormedCore(cfg, c) && Bounded(cfg, c)
    ensures WellFormedCore(cfg, Step(cfg, c, call).0) && Bounded(cfg, Step(cfg, c, call).0)
  {
    hide Apply;
    hide Flush;
    hide BufferObservation;
    hide WellFormedCore;
    hide Bounded;
    EvaluateForm(cfg, c, call.obs, call.oldStatus, call.now);
    BufferBounded(cfg, c, call.obs, call.oldStatus, call.now);
    DirectBounded(cfg, c, call.obs, call.oldStatus, call.now);
  }

  lemma {:induction false} RunBounded(cfg: Config, c: Core, calls: seq<Call>)
    requires WellFormedCore(cfg, c) && Bounded(cfg, c)
    ensures WellFormedCore(cfg, Run(cfg, c, calls).0) && Bounded(cfg, Run(cfg, c, calls).0)
    decreases |calls|
  {
    hide Step;
    hide WellFormedCore;
    hide Bounded;
    if calls != [] {
      StepBounded(cfg, c, calls[0]);
      RunBounded(cfg, Step(cfg, c, calls[0]).0, calls[1..]);
    }
  }

  /** Over any run no peer has more entries held back than the configured maximum. */
  lemma BuffersStayBounded(cfg: Config, calls: seq<Call>, p: string)
    ensures |PendingOf(Run(cfg, Fresh(), calls).0, p)| <= if cfg.bufferMax > 0 then cfg.bufferMax else 0
  {
    hide Run;
    FreshIsTracked(cfg, p);
    RunBounded(cfg, Fresh(), calls);
  }
}

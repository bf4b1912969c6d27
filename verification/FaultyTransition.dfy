/** The pipeline when audit writes fail (orchestrator/state_transition_manager.py:168-359). A failing write
    raises out of the call: the gates' own records stay, an entry being drained is put back into the
    buffer, an expired one is not, and nothing after it happens. */
module FaultyTransition {
  import opened Prelude
  import opened LruCache
  import opened Observations
  import opened Equivocation
  import opened Reputation
  import opened StateTransition

  /** How many audit writes of a call succeed before one fails; None when all do. */
  type Fault = Option<nat>

  predicate FailsNow(fault: Fault) {
    fault == Some(0)
  }

  function Tick(fault: Fault): Fault {
    if fault.Some? && fault.value > 0 then Some(fault.value - 1) else None
  }

  /** The gates up to their audit write. */
  function ApplyRaising(c: Core, obs: Observation): Core {
    var c1 := c.(equiv := Record(c.equiv, obs));
    if Collect(Retained(c.equiv, obs), obs) != [] then c1.(scores := RecordEquivocation(c.scores, obs.observerId)) else c1
  }

  /** The drain: state, what is left in the buffer, decided results, and whether it raised. */
  function FaultyLoop(cfg: Config, c: Core, pending: Pending, p: string, now: real, fault: Fault): (Core, Pending, seq<Outcome>, bool)
    decreases pending.Keys
  {
    if p !in c.last.val || NextOf(c.last.val[p]) !in pending then (c, pending, [], false)
    else
      var next := NextOf(c.last.val[p]);
      var held, rest := pending[next], pending - {next};
      assert next in pending.Keys && next !in rest.Keys;
      if held.obs.IsStale(now) then
        if FailsNow(fault) then (c, rest, [], true) else (c, rest, [Reject(held.obs, held.oldStatus, Stale)], false)
      else if DedupOf(held.obs) in c.seen.val then
        FaultyLoop(cfg, c.(last := Touch(c.last, p, held.obs.Key(), cfg.maxCache)), rest, p, now, fault)
      else if FailsNow(fault) then (ApplyRaising(c, held.obs), pending, [], true)
      else
        var (c1, o) := ApplyHeld(cfg, c, held);
        var (c2, left, os, raised) := FaultyLoop(cfg, c1, rest, p, now, Tick(fault));
        (c2, left, [o] + os, raised)
  }

  /** A raising drain skips the removal of an emptied buffer. */
  function FaultyFlush(cfg: Config, c: Core, p: string, now: real, fault: Fault): (Core, seq<Outcome>, bool) {
    if p !in c.buffer.val || c.buffer.val[p] == map[] then (c, [], false)
    else
      var (c1, left, os, raised) := FaultyLoop(cfg, c, c.buffer.val[p], p, now, fault);
      (c1.(buffer := if raised then Put(c1.buffer, p, left) else StorePending(c1.buffer, p, left)), os, raised)
  }

  function Refuse(c: Core, o: Outcome, fault: Fault): (Core, seq<Outcome>, bool) {
    if FailsNow(fault) then (c, [], true) else (c, [o], false)
  }

  function FaultyEvaluate(cfg: Config, c: Core, obs: Observation, oldStatus: string, now: real, fault: Fault)
    : (Core, seq<Outcome>, bool)
  {
    if DedupOf(obs) in c.seen.val then Refuse(c, Reject(obs, oldStatus, Duplicate), fault)
    else if obs.peerId in c.last.val && AtOrBefore(obs.Key(), c.last.val[obs.peerId]) then
      Refuse(c, Reject(obs, oldStatus, Stale), fault)
    else if obs.peerId in c.last.val && obs.epoch == c.last.val[obs.peerId].0
            && obs.sequence > c.last.val[obs.peerId].1 + 1 then
      var (c1, o) := BufferObservation(cfg, c, obs, oldStatus, now);
      if o.request.Some? then Refuse(c1, o, fault) else (c1, [o], false)
    else if obs.IsStale(now) then Refuse(c, Reject(obs, oldStatus, Stale), fault)
    else if FailsNow(fault) then (ApplyRaising(c, obs), [], true)
    else
      var (c1, o) := Apply(cfg, c, obs, oldStatus);
      var (c2, os, raised) := FaultyFlush(cfg, c1, obs.peerId, now, Tick(fault));
      (c2, [o] + os, raised)
  }

  // ---- without a fault nothing changes ----

  lemma {:induction false} FaultlessLoop(cfg: Config, c: Core, pending: Pending, p: string, now: real)
    ensures
      var (c1, left, outs) := FlushLoop(cfg, c, pending, p, now);
      FaultyLoop(cfg, c, pending, p, now, None) == (c1, left, outs, false)
    decreases pending.Keys
  {
    hide ApplyHeld;
    hide Touch;
    if p in c.last.val && NextOf(c.last.val[p]) in pending {
      var next := NextOf(c.last.val[p]);
      var held, rest := pending[next], pending - {next};
      assert next in pending.Keys && next !in rest.Keys;
      if held.obs.IsStale(now) {
      } else if DedupOf(held.obs) in c.seen.val {
        FaultlessLoop(cfg, c.(last := Touch(c.last, p, held.obs.Key(), cfg.maxCache)), rest, p, now);
      } else {
        FaultlessLoop(cfg, ApplyHeld(cfg, c, held).0, rest, p, now);
      }
    }
  }

  /** A call without a failing write is the call of the specification. */
  lemma FaultlessIsEvaluate(cfg: Config, c: Core, obs: Observation, oldStatus: string, now: real)
    ensures
      var (c1, outs) := Evaluate(cfg, c, obs, oldStatus, now);
      FaultyEvaluate(cfg, c, obs, oldStatus, now, None) == (c1, outs, false)
  {
    hide Apply;
    hide FlushLoop;
    hide FaultyLoop;
    hide BufferObservation;
    var c1 := Apply(cfg, c, obs, oldStatus).0;
    if obs.peerId in c1.buffer.val {
      FaultlessLoop(cfg, c1, c1.buffer.val[obs.peerId], obs.peerId, now);
    }
  }
}

/** The manager object (orchestrator/state_transition_manager.py): the in-place pipeline, proved
    against the functions of StateTransition and FaultyTransition, with the audit log it writes. Any one
    of a call's audit writes may fail, and then the call raises. */
module StateTransitionManager {
  import opened Prelude
  import opened LruCache
  import opened Observations
  import opened StateTransition
  import opened FaultyTransition
  import opened WitnessGates
  import Equivocation
  import Reputation
  import KBuckets
  import AuditChain

  /** The audit requests of a list of results, in order. */
  function Requests(outs: seq<Outcome>): seq<AuditChain.Request> {
    if outs == [] then []
    else (if outs[0].request.Some? then [outs[0].request.value] else []) + Requests(outs[1..])
  }

  lemma {:induction false} RequestsAppend(a: seq<Outcome>, b: seq<Outcome>)
    ensures Requests(a + b) == Requests(a) + Requests(b)
  {
    if a == [] {
      assert a + b == b;
    } else {
      assert (a + b)[1..] == a[1..] + b && (a + b)[0] == a[0];
      RequestsAppend(a[1..], b);
      var head := if a[0].request.Some? then [a[0].request.value] else [];
      assert Requests(a + b) == head + Requests(a[1..] + b);
      assert Requests(a) == head + Requests(a[1..]);
    }
  }

  lemma AppendOne(crypto: AuditChain.Crypto, entries: seq<AuditChain.Entry>, r: AuditChain.Request, now: real)
    ensures AuditChain.AppendAll(crypto, entries, [r], now) == entries + [AuditChain.NextEntry(crypto, entries, r, now)]
  {
    var rs := [r];
    assert rs[1..] == [];
    var longer := entries + [AuditChain.NextEntry(crypto, entries, r, now)];
    assert AuditChain.AppendAll(crypto, longer, rs[1..], now) == longer;
  }

  // ---- the flush, one turn at a time ----

  type Drain = (Core, Pending, seq<Outcome>, bool)

  /** Finishing the drain from here completes `goal`. */
  ghost predicate Completes(goal: Drain, cfg: Config, c: Core, pending: Pending, p: string, now: real, fault: Fault,
                            flushed: seq<Outcome>) {
    var (c1, left, os, raised) := FaultyLoop(cfg, c, pending, p, now, fault);
    goal == (c1, left, flushed + os, raised)
  }

  lemma DrainStarts(cfg: Config, c: Core, pending: Pending, p: string, now: real, fault: Fault)
    ensures Completes(FaultyLoop(cfg, c, pending, p, now, fault), cfg, c, pending, p, now, fault, [])
  {
    hide FaultyLoop;
    var (c1, left, os, raised) := FaultyLoop(cfg, c, pending, p, now, fault);
    assert [] + os == os;
  }

  lemma DrainEnds(goal: Drain, cfg: Config, c: Core, pending: Pending, p: string, now: real, fault: Fault, flushed: seq<Outcome>)
    requires Completes(goal, cfg, c, pending, p, now, fault, flushed)
    requires p in c.last.val ==> NextOf(c.last.val[p]) !in pending
    ensures goal == (c, pending, flushed, false)
  {
    hide ApplyHeld;
    assert flushed + [] == flushed;
  }

  lemma DrainTurn(goal: Drain, cfg: Config, c: Core, pending: Pending, p: string, now: real, fault: Fault, flushed: seq<Outcome>)
    requires Completes(goal, cfg, c, pending, p, now, fault, flushed)
    requires p in c.last.val && NextOf(c.last.val[p]) in pending
    ensures
      var next := NextOf(c.last.val[p]);
      var held, rest := pending[next], pending - {next};
      if held.obs.IsStale(now) then
        goal == if FailsNow(fault) then (c, rest, flushed, true)
                else (c, rest, flushed + [Reject(held.obs, held.oldStatus, Stale)], false)
      else if DedupOf(held.obs) in c.seen.val then
        Completes(goal, cfg, c.(last := Touch(c.last, p, held.obs.Key(), cfg.maxCache)), rest, p, now, fault, flushed)
      else if FailsNow(fault) then goal == (ApplyRaising(c, held.obs), pending, flushed, true)
      else
        var (c1, o) := ApplyHeld(cfg, c, held);
        Completes(goal, cfg, c1, rest, p, now, Tick(fault), flushed + [o])
  {
    hide ApplyHeld;
    hide ApplyRaising;
    hide Touch;
    var next := NextOf(c.last.val[p]);
    var held, rest := pending[next], pending - {next};
    assert flushed + [] == flushed;
    if !held.obs.IsStale(now) && DedupOf(held.obs) !in c.seen.val && !FailsNow(fault) {
      var (c1, o) := ApplyHeld(cfg, c, held);
      var (c2, left, os, raised) := FaultyLoop(cfg, c1, rest, p, now, Tick(fault));
      assert flushed + ([o] + os) == (flushed + [o]) + os;
    }
  }

  /** The gates with a write that may fail; None when it does. */
  function TryApply(cfg: Config, c: Core, obs: Observation, oldStatus: string, fault: Fault): (Core, Option<Outcome>) {
    if FailsNow(fault) then (ApplyRaising(c, obs), None)
    else
      var (c1, o) := Apply(cfg, c, obs, oldStatus);
      (c1, Some(o))
  }

  function TryApplyHeld(cfg: Config, c: Core, held: Held, fault: Fault): (Core, Option<Outcome>) {
    if FailsNow(fault) then (ApplyRaising(c, held.obs), None)
    else
      var (c1, o) := ApplyHeld(cfg, c, held);
      (c1, Some(o))
  }

  /** The results there are. */
  function Results(o: Option<Outcome>): seq<Outcome> {
    if o.Some? then [o.value] else []
  }

  class Manager {
    const cfg: Config
    const equivocationLog: Equivocation.EquivocationLog
    const kBucket: KBuckets.KBucketTable
    const auditLog: AuditChain.AuditLog
    const reputation: Reputation.ReputationLedger
    var lastApplied: Lru<string, Key>
    var seenObservations: Lru<DedupKey, ()>
    var reorderBuffer: Lru<string, Pending>

    constructor (cfg: Config, equivocationLog: Equivocation.EquivocationLog, kBucket: KBuckets.KBucketTable,
                 auditLog: AuditChain.AuditLog, reputation: Reputation.ReputationLedger)
      ensures this.cfg == cfg && this.equivocationLog == equivocationLog && this.kBucket == kBucket
      ensures this.auditLog == auditLog && this.reputation == reputation
      ensures State() == Core(Empty(), Empty(), Empty(), equivocationLog.observations, reputation.scores, kBucket.buckets)
    {
      this.cfg := cfg;
      this.equivocationLog := equivocationLog;
      this.kBucket := kBucket;
      this.auditLog := auditLog;
      this.reputation := reputation;
      lastApplied, seenObservations, reorderBuffer := Empty(), Empty(), Empty();
    }

    /** The pipeline state that the object stands for. */
    ghost function State(): Core
      reads this, equivocationLog, kBucket, reputation
    {
      Core(seenObservations, lastApplied, reorderBuffer, equivocationLog.observations, reputation.scores, kBucket.buckets)
    }

    /** The parts agree with the configuration, and the audit log accepts appends. */
    ghost predicate Valid()
      reads auditLog
    {
      && reputation.neutralDefault == cfg.neutral && kBucket.space == cfg.space
      && AuditChain.SignerSound(auditLog.crypto) && AuditChain.ChainOk(auditLog.crypto, auditLog.entries)
    }

    /** The audit log with the given results recorded at time `now`. */
    ghost function Recorded(entries: seq<AuditChain.Entry>, outs: seq<Outcome>, now: real): seq<AuditChain.Entry>
    {
      AuditChain.AppendAll(auditLog.crypto, entries, Requests(outs), now)
    }

    lemma RecordedOne(entries: seq<AuditChain.Entry>, o: Outcome, now: real)
      requires o.request.Some?
      ensures Recorded(entries, [o], now)
           == entries + [AuditChain.NextEntry(auditLog.crypto, entries, o.request.value, now)]
    {
      assert [o][1..] == [];
      assert Requests([o]) == [o.request.value];
      AppendOne(auditLog.crypto, entries, o.request.value, now);
    }

    lemma RecordedJoin(entries: seq<AuditChain.Entry>, a: seq<Outcome>, b: seq<Outcome>, now: real)
      ensures Recorded(Recorded(entries, a, now), b, now) == Recorded(entries, a + b, now)
    {
      RequestsAppend(a, b);
      AuditChain.AppendAllJoin(auditLog.crypto, entries, Requests(a), Requests(b), now);
    }

    lemma NothingRecorded(entries: seq<AuditChain.Entry>, now: real)
      ensures Recorded(entries, [], now) == entries
    {
    }

    /** Record one result; a failing write leaves the log as it was and raises. */
    method Audit(o: Outcome, now: real, fault: Fault, io: AuditChain.Io) returns (raised: bool)
      requires Valid() && o.request.Some? && io != AuditChain.Written
      modifies auditLog
      ensures Valid() && raised == FailsNow(fault)
      ensures auditLog.entries == Recorded(old(auditLog.entries), if raised then [] else [o], now)
    {
      raised := FailsNow(fault);
      var res := auditLog.Append(o.request.value, now, if raised then io else AuditChain.Written);
      AuditChain.AppendKeepsChain(auditLog.crypto, old(auditLog.entries), o.request.value, now);
      RecordedOne(old(auditLog.entries), o, now);
      NothingRecorded(old(auditLog.entries), now);
    }

    method TouchMarks(obs: Observation)
      modifies this
      ensures State() == Mark(cfg, old(State()), obs)
    {
      seenObservations := Touch(seenObservations, DedupOf(obs), (), cfg.maxCache);
      lastApplied := Touch(lastApplied, obs.peerId, obs.Key(), cfg.maxCache);
    }

    /** The heaviest weight of each provenance bucket. */
    method TallyWitnesses(ws: seq<Observation>) returns (tally: Tally)
      requires reputation.neutralDefault == cfg.neutral
      ensures tally == TallyVotes(cfg.bucketOf, WeightOf(cfg, reputation.scores), ws)
    {
      ghost var weightOf := WeightOf(cfg, reputation.scores);
      tally := Tally([], map[]);
      for n := 0 to |ws|
        invariant tally == TallyVotes(cfg.bucketOf, weightOf, ws[..n])
      {
        assert ws[..n + 1][..n] == ws[..n];
        var bucket := cfg.bucketOf(ws[n].provenance);
        var weight := Reputation.Weight(reputation.scores, reputation.neutralDefault, ws[n].observerId);
        tally := AddVote(tally, bucket, weight);
      }
      assert ws[..|ws|] == ws;
    }

    /** The weighted score, one bucket at a time. */
    method WeighVotes(ws: seq<Observation>) returns (score: real)
      requires reputation.neutralDefault == cfg.neutral
      ensures score == Score(cfg.bucketOf, WeightOf(cfg, reputation.scores), ws)
    {
      hide AddVote;
      var tally := TallyWitnesses(ws);
      score := 0.0;
      for n := 0 to |tally.order|
        invariant forall b :: b in tally.order ==> b in tally.best
        invariant score == SumBest(tally.order[..n], tally.best)
      {
        assert tally.order[..n + 1][..n] == tally.order[..n];
        assert tally.order[n] in tally.order;
        score := score + tally.best[tally.order[n]];
      }
      assert tally.order[..|tally.order|] == tally.order;
    }

    /** The correlated partners of one id among `ids`, in order. */
    method PairsWith(id: string, ids: seq<string>) returns (pairs: seq<(string, string)>)
      requires kBucket.space == cfg.space
      ensures pairs == PeerPairs(cfg.space, cfg.proximityBits, id, ids)
    {
      pairs := [];
      for i := 0 to |ids|
        invariant pairs == PeerPairs(cfg.space, cfg.proximityBits, id, ids[..i])
      {
        assert ids[..i + 1][..i] == ids[..i];
        if KBuckets.IsCorrelated(cfg.space, id, ids[i], cfg.proximityBits) {
          pairs := pairs + [(id, ids[i])];
        }
      }
      assert ids[..|ids|] == ids;
    }

    /** The two correlation loops. */
    method CollectPairs(p: string, ids: seq<string>) returns (pairs: seq<(string, string)>)
      requires kBucket.space == cfg.space
      ensures pairs == CorrelatedPairs(cfg.space, cfg.proximityBits, p, ids)
    {
      pairs := PairsWith(p, ids);
      ghost var first := pairs;
      for i := 0 to |ids|
        invariant pairs == first + RingPairs(cfg.space, cfg.proximityBits, ids, i)
      {
        var inner := PairsWith(ids[i], ids[i + 1..]);
        ghost var before := RingPairs(cfg.space, cfg.proximityBits, ids, i);
        assert (first + before) + inner == first + (before + inner);
        pairs := pairs + inner;
      }
    }

    method CollectOverlap(peers: seq<string>, ids: seq<string>) returns (overlap: seq<string>)
      ensures overlap == Overlap(peers, ids)
    {
      overlap := [];
      for i := 0 to |peers|
        invariant overlap == Overlap(peers[..i], ids)
      {
        assert peers[..i + 1][..i] == peers[..i];
        if peers[i] in ids {
          overlap := overlap + [peers[i]];
        }
      }
      assert peers[..|peers|] == peers;
    }

    /** The signal from the correlated pairs and the bucket overlap. */
    method CheckSybilCorrelation(obs: Observation) returns (signal: SybilSignal, pairs: seq<(string, string)>)
      requires kBucket.space == cfg.space
      ensures pairs == CorrelatedPairs(cfg.space, cfg.proximityBits, obs.peerId, WitnessPeers(obs.witnesses))
      ensures signal == Signal(cfg.space, cfg.proximityBits, kBucket.buckets, obs)
    {
      hide CorrelatedPairs;
      hide Overlap;
      var ids := WitnessPeers(obs.witnesses);
      pairs := CollectPairs(obs.peerId, ids);
      var peers := KBuckets.PeersInBucket(kBucket.buckets, KBuckets.BucketFor(cfg.space, obs.peerId));
      var overlap := CollectOverlap(peers, ids);
      if |pairs| >= 2 || |overlap| >= 2 {
        signal := Strong;
      } else if pairs != [] || overlap != [] {
        signal := Weak;
      } else {
        signal := NoSignal;
      }
    }

    /** The gates, in order, with the record each of them leaves. */
    method ApplyObservation(obs: Observation, oldStatus: string, now: real, fault: Fault, io: AuditChain.Io)
      returns (o: Option<Outcome>)
      requires Valid() && io != AuditChain.Written
      modifies this, equivocationLog, kBucket, reputation, auditLog
      ensures Valid() && reorderBuffer == old(reorderBuffer)
      ensures (State(), o) == TryApply(cfg, old(State()), obs, oldStatus, fault)
      ensures auditLog.entries == Recorded(old(auditLog.entries), Results(o), now)
    {
      hide Score;
      hide Signal;
      hide Equivocation.Collect;
      hide Equivocation.Retained;
      hide HasQuorum;
      hide Touch;
      hide KBuckets.Update;
      hide AuditChain.AppendAll;
      hide Requests;
      var evidences := equivocationLog.RecordObservation(obs);
      var result;
      if evidences != [] {
        reputation.RecordEquivocationBy(obs.observerId);
        result := Reject(obs, oldStatus, EquivocationFound).(evidences := evidences);
      } else {
        result := Gate(obs, oldStatus);
      }
      var raised := Audit(result, now, fault, io);
      if raised {
        return None;
      }
      if result.accepted {
        TouchMarks(obs);
        kBucket.UpdatePeer(obs.peerId, obs.timestamp);
      }
      return Some(result);
    }

    /** The witness gates: the result they come to, before it is recorded. */
    method Gate(obs: Observation, oldStatus: string) returns (result: Outcome)
      requires reputation.neutralDefault == cfg.neutral && kBucket.space == cfg.space
      ensures result == GateResult(obs, oldStatus)
    {
      hide Score;
      hide Signal;
      hide HasQuorum;
      if !HasQuorum(cfg.bucketOf, obs) {
        return Reject(obs, oldStatus, InsufficientQuorum);
      }
      var score := WeighVotes(obs.witnesses);
      if score < cfg.threshold {
        return Reject(obs, oldStatus, InsufficientQuorum).(score := Some(score));
      }
      var signal, _ := CheckSybilCorrelation(obs);
      return Outcome(obs, oldStatus, if signal.NoSignal? then Approved else SybilFlagged, true, [], Some(score), Some(signal),
                     Some(AuditChain.Request(obs.peerId, oldStatus, KindLabel(obs.kind), ObserversOf(obs.witnesses))), false);
    }

    ghost function GateResult(obs: Observation, oldStatus: string): Outcome
      reads reputation, kBucket
    {
      var score := Score(cfg.bucketOf, WeightOf(cfg, reputation.scores), obs.witnesses);
      var signal := Signal(cfg.space, cfg.proximityBits, kBucket.buckets, obs);
      if !HasQuorum(cfg.bucketOf, obs) then Reject(obs, oldStatus, InsufficientQuorum)
      else if score < cfg.threshold then Reject(obs, oldStatus, InsufficientQuorum).(score := Some(score))
      else
        Outcome(obs, oldStatus, if signal.NoSignal? then Approved else SybilFlagged, true, [], Some(score), Some(signal),
                Some(AuditChain.Request(obs.peerId, oldStatus, KindLabel(obs.kind), ObserversOf(obs.witnesses))), false)
    }

    /** One buffered entry: apply it and advance the watermark even when a gate rejects it. */
    method ApplyBuffered(held: Held, now: real, fault: Fault, io: AuditChain.Io) returns (o: Option<Outcome>)
      requires Valid() && io != AuditChain.Written
      modifies this, equivocationLog, kBucket, reputation, auditLog
      ensures Valid() && reorderBuffer == old(reorderBuffer)
      ensures (State(), o) == TryApplyHeld(cfg, old(State()), held, fault)
      ensures auditLog.entries == Recorded(old(auditLog.entries), Results(o), now)
    {
      hide Apply;
      hide ApplyRaising;
      var p := held.obs.peerId;
      var before := if p in lastApplied.val then Some(lastApplied.val[p]) else None;
      o := ApplyObservation(held.obs, held.oldStatus, now, fault, io);
      if o.None? {
        return;
      }
      var after := if p in lastApplied.val then Some(lastApplied.val[p]) else None;
      if after == before {
        TouchMarks(held.obs);
        AdvancedRecordsSame(o.value);
        o := Some(o.value.(advanced := true));
      }
    }

    lemma AdvancedRecordsSame(o: Outcome)
      ensures Requests([o]) == Requests([o.(advanced := true)])
    {
      assert [o][1..] == [] && [o.(advanced := true)][1..] == [];
    }

    /** Drain contiguous successors; an expired entry at the front stops the drain, and a failing write
        puts the entry being applied back and raises. */
    method FlushReorderBuffer(p: string, now: real, fault: Fault, io: AuditChain.Io)
      returns (flushed: seq<Outcome>, raised: bool)
      requires Valid() && io != AuditChain.Written
      modifies this, equivocationLog, kBucket, reputation, auditLog
      ensures Valid()
      ensures (State(), flushed, raised) == FaultyFlush(cfg, old(State()), p, now, fault)
      ensures auditLog.entries == Recorded(old(auditLog.entries), flushed, now)
    {
      hide ApplyHeld;
      hide ApplyRaising;
      hide FaultyLoop;
      hide Completes;
      hide Touch;
      flushed, raised := [], false;
      NothingRecorded(auditLog.entries, now);
      if p !in reorderBuffer.val || reorderBuffer.val[p] == map[] {
        return;
      }
      var buffer := reorderBuffer.val[p];
      var left := fault;
      ghost var goal := FaultyLoop(cfg, State(), buffer, p, now, fault);
      ghost var entries := auditLog.entries;
      DrainStarts(cfg, State(), buffer, p, now, fault);
      var stopped := false;
      while !stopped && p in lastApplied.val && NextOf(lastApplied.val[p]) in buffer
        invariant Valid() && reorderBuffer == old(reorderBuffer)
        invariant auditLog.entries == Recorded(entries, flushed, now)
        invariant !stopped ==> !raised && Completes(goal, cfg, State(), buffer, p, now, left, flushed)
        invariant stopped ==> goal == (State(), buffer, flushed, raised)
        decreases !stopped, buffer.Keys
      {
        DrainTurn(goal, cfg, State(), buffer, p, now, left, flushed);
        assert flushed + [] == flushed;
        var next := NextOf(lastApplied.val[p]);
        var held := buffer[next];
        assert next in buffer.Keys;
        var rest := buffer - {next};
        if held.obs.IsStale(now) {
          var o := Reject(held.obs, held.oldStatus, Stale);
          raised := Audit(o, now, left, io);
          RecordedJoin(entries, flushed, if raised then [] else [o], now);
          flushed := flushed + if raised then [] else [o];
          buffer, stopped := rest, true;
        } else if DedupOf(held.obs) in seenObservations.val {
          lastApplied := Touch(lastApplied, p, held.obs.Key(), cfg.maxCache);
          buffer := rest;
        } else {
          var o := ApplyBuffered(held, now, left, io);
          RecordedJoin(entries, flushed, Results(o), now);
          flushed := flushed + Results(o);
          if o.None? {
            raised, stopped := true, true;
          } else {
            buffer, left := rest, Tick(left);
          }
        }
      }
      if !stopped {
        DrainEnds(goal, cfg, State(), buffer, p, now, left, flushed);
      }
      if buffer == map[] && !raised {
        reorderBuffer := Delete(reorderBuffer, p);
      } else {
        reorderBuffer := Put(reorderBuffer, p, buffer);
      }
    }

    /** Hold an observation back, or refuse it; a failing write changes nothing. */
    method Buffer(obs: Observation, oldStatus: string, now: real, fault: Fault, io: AuditChain.Io)
      returns (outs: seq<Outcome>, raised: bool)
      requires Valid() && io != AuditChain.Written
      modifies this, auditLog
      ensures Valid()
      ensures
        var (c, o) := BufferObservation(cfg, old(State()), obs, oldStatus, now);
        (State(), outs, raised) == if o.request.Some? then Refuse(c, o, fault) else (c, [o], false)
      ensures auditLog.entries == Recorded(old(auditLog.entries), outs, now)
    {
      hide Touch;
      HoldRecordsNothing(obs, oldStatus, now);
      var pending := if obs.peerId in reorderBuffer.val then reorderBuffer.val[obs.peerId] else map[];
      if obs.IsStale(now) {
        outs, raised := RefuseWith(Reject(obs, oldStatus, Stale), now, fault, io);
      } else if obs.Key() in pending && pending[obs.Key()].obs != obs {
        outs, raised := RefuseWith(Reject(obs, oldStatus, Duplicate), now, fault, io);
      } else if obs.Key() in pending {
        outs, raised := [Hold(obs, oldStatus)], false;
      } else if |pending| >= cfg.bufferMax {
        outs, raised := RefuseWith(Reject(obs, oldStatus, Stale), now, fault, io);
      } else {
        reorderBuffer := Touch(reorderBuffer, obs.peerId, pending[obs.Key() := Held(obs, oldStatus)], cfg.maxCache);
        outs, raised := [Hold(obs, oldStatus)], false;
      }
    }

    /** A refusal, recorded or raised. */
    method RefuseWith(o: Outcome, now: real, fault: Fault, io: AuditChain.Io) returns (outs: seq<Outcome>, raised: bool)
      requires Valid() && o.request.Some? && io != AuditChain.Written
      modifies auditLog
      ensures Valid() && State() == old(State())
      ensures (State(), outs, raised) == Refuse(old(State()), o, fault)
      ensures auditLog.entries == Recorded(old(auditLog.entries), outs, now)
    {
      raised := Audit(o, now, fault, io);
      outs := if raised then [] else [o];
    }

    lemma HoldRecordsNothing(obs: Observation, oldStatus: string, now: real)
      ensures Recorded(auditLog.entries, [Hold(obs, oldStatus)], now) == auditLog.entries
    {
      var o := Hold(obs, oldStatus);
      assert [o][1..] == [];
      assert Requests([o]) == [];
    }

    /** One call: the direct result, then the flushed ones, or as many of them as were recorded before a
        failing write raised. The state is exactly that of the specification, and the audit log has
        grown by exactly the audited results, in order. */
    method EvaluateObservation(obs: Observation, oldStatus: string, now: real, fault: Fault, io: AuditChain.Io)
      returns (outs: seq<Outcome>, raised: bool)
      requires Valid() && io != AuditChain.Written
      modifies this, equivocationLog, kBucket, reputation, auditLog
      ensures Valid()
      ensures (State(), outs, raised) == FaultyEvaluate(cfg, old(State()), obs, oldStatus, now, fault)
      ensures fault.None? ==> !raised && (State(), outs) == Evaluate(cfg, old(State()), obs, oldStatus, now)
      ensures auditLog.entries == Recorded(old(auditLog.entries), outs, now)
    {
      hide Evaluate;
      hide Apply;
      hide ApplyRaising;
      hide FaultyFlush;
      hide BufferObservation;
      FaultlessIsEvaluate(cfg, State(), obs, oldStatus, now);
      if DedupOf(obs) in seenObservations.val {
        outs, raised := RefuseWith(Reject(obs, oldStatus, Duplicate), now, fault, io);
        return;
      }
      if obs.peerId in lastApplied.val {
        var (lastEpoch, lastSeq) := lastApplied.val[obs.peerId];
        if obs.epoch < lastEpoch || (obs.epoch == lastEpoch && obs.sequence <= lastSeq) {
          outs, raised := RefuseWith(Reject(obs, oldStatus, Stale), now, fault, io);
          return;
        }
        if obs.epoch == lastEpoch && obs.sequence > lastSeq + 1 {
          outs, raised := Buffer(obs, oldStatus, now, fault, io);
          return;
        }
      }
      if obs.IsStale(now) {
        outs, raised := RefuseWith(Reject(obs, oldStatus, Stale), now, fault, io);
        return;
      }
      outs, raised := ApplyAndFlush(obs, oldStatus, now, fault, io);
    }

    /** The direct result and the drain after it. */
    method ApplyAndFlush(obs: Observation, oldStatus: string, now: real, fault: Fault, io: AuditChain.Io)
      returns (outs: seq<Outcome>, raised: bool)
      requires Valid() && io != AuditChain.Written
      modifies this, equivocationLog, kBucket, reputation, auditLog
      ensures Valid()
      ensures
        var (c1, o) := Apply(cfg, old(State()), obs, oldStatus);
        var (c2, os, r) := FaultyFlush(cfg, c1, obs.peerId, now, Tick(fault));
        (State(), outs, raised) == if FailsNow(fault) then (ApplyRaising(old(State()), obs), [], true) else (c2, [o] + os, r)
      ensures auditLog.entries == Recorded(old(auditLog.entries), outs, now)
    {
      hide Apply;
      hide ApplyRaising;
      hide FaultyFlush;
      ghost var entries := auditLog.entries;
      var o := ApplyObservation(obs, oldStatus, now, fault, io);
      if o.None? {
        return [], true;
      }
      var flushed, r := FlushReorderBuffer(obs.peerId, now, Tick(fault), io);
      RecordedJoin(entries, [o.value], flushed, now);
      return [o.value] + flushed, r;
    }
  }
}

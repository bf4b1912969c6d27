/** What a whole run of the manager leaves in the audit log. */
module AuditRuns {
  import opened Prelude
  import opened LruCache
  import opened Observations
  import opened StateTransition
  import opened StateTransitionManager
  import opened AuditChain
  import WitnessGates

  /** The log after a run: each call records its audited results at its own time
      (Manager.EvaluateObservation). */
  function RunEntries(crypto: Crypto, entries: seq<Entry>, cfg: Config, c: Core, calls: seq<Call>): seq<Entry>
    decreases |calls|
  {
    if calls == [] then entries
    else
      var (c1, outs) := Step(cfg, c, calls[0]);
      RunEntries(crypto, AppendAll(crypto, entries, Requests(outs), calls[0].now), cfg, c1, calls[1..])
  }

  /** The record a result must leave: none when it was only buffered, otherwise the new status that
      the decision stands for, with the distinct witnesses of an accepted observation. */
  ghost predicate AuditedAsDecided(o: Outcome) {
    var accepted := o.decision.Approved? || o.decision.SybilFlagged?;
    if o.decision.Buffered? then o.request.None?
    else
      && o.request.Some?
      && o.request.value.peerId == o.obs.peerId && o.request.value.oldStatus == o.oldStatus
      && o.request.value.newStatus ==
           (match o.decision
            case EquivocationFound => "equivocation"
            case InsufficientQuorum => "insufficient_quorum"
            case Stale => "stale"
            case Duplicate => "duplicate"
            case _ => if o.obs.kind.Reachable? then "REACHABLE" else "UNREACHABLE")
      && (if accepted then NoDup(o.request.value.witnesses)
            && forall id :: id in o.request.value.witnesses <==> exists i :: 0 <= i < |o.obs.witnesses| && o.obs.witnesses[i].observerId == id
          else o.request.value.witnesses == [])
  }

  ghost predicate AllAudited(outs: seq<Outcome>) {
    forall i :: 0 <= i < |outs| ==> AuditedAsDecided(outs[i])
  }

  /** Requests are exactly the records of the decided results. */
  lemma {:induction false} RequestsMatchDecided(outs: seq<Outcome>)
    requires AllAudited(outs)
    ensures |Requests(outs)| == |Decided(outs)|
    ensures forall i :: 0 <= i < |Decided(outs)| ==>
              AuditedAsDecided(Decided(outs)[i]) && !Decided(outs)[i].decision.Buffered?
              && Some(Requests(outs)[i]) == Decided(outs)[i].request
  {
    if outs != [] {
      assert AuditedAsDecided(outs[0]);
      RequestsMatchDecided(outs[1..]);
    }
  }

  lemma ApplyAudited(cfg: Config, c: Core, obs: Observation, oldStatus: string)
    ensures AuditedAsDecided(Apply(cfg, c, obs, oldStatus).1)
  {
    hide WitnessGates.Score;
    hide WitnessGates.Signal;
    hide WitnessGates.HasQuorum;
    hide WitnessGates.ObserversOf;
    hide Touch;
    WitnessGates.ObserversAreDistinct(obs.witnesses);
  }

  lemma {:induction false} FlushLoopAudited(cfg: Config, c: Core, pending: Pending, p: string, now: real)
    ensures AllAudited(FlushLoop(cfg, c, pending, p, now).2)
    decreases pending.Keys
  {
    hide Apply;
    if p in c.last.val && NextOf(c.last.val[p]) in pending {
      var next := NextOf(c.last.val[p]);
      var held, rest := pending[next], pending - {next};
      assert next in pending.Keys && next !in rest.Keys;
      if held.obs.IsStale(now) {
      } else if DedupOf(held.obs) in c.seen.val {
        FlushLoopAudited(cfg, c.(last := Touch(c.last, p, held.obs.Key(), cfg.maxCache)), rest, p, now);
      } else {
        ApplyAudited(cfg, c, held.obs, held.oldStatus);
        FlushLoopAudited(cfg, ApplyHeld(cfg, c, held).0, rest, p, now);
      }
    }
  }

  lemma FlushAudited(cfg: Config, c: Core, p: string, now: real)
    ensures AllAudited(Flush(cfg, c, p, now).1)
  {
    hide FlushLoop;
    hide StorePending;
    hide AuditedAsDecided;
    if p in c.buffer.val {
      FlushLoopAudited(cfg, c, c.buffer.val[p], p, now);
    }
  }

  lemma BufferAudited(cfg: Config, c: Core, obs: Observation, oldStatus: string, now: real)
    ensures AuditedAsDecided(BufferObservation(cfg, c, obs, oldStatus, now).1)
  {
    hide Touch;
  }

  lemma EvaluateAudited(cfg: Config, c: Core, obs: Observation, oldStatus: string, now: real)
    ensures AllAudited(Evaluate(cfg, c, obs, oldStatus, now).1)
  {
    hide Apply;
    hide Flush;
    hide BufferObservation;
    ApplyAudited(cfg, c, obs, oldStatus);
    FlushAudited(cfg, Apply(cfg, c, obs, oldStatus).0, obs.peerId, now);
    BufferAudited(cfg, c, obs, oldStatus, now);
  }

  /** What an entry says about the result it records: the transition as decided, signed by the signer. */
  ghost predicate Records(crypto: Crypto, e: Entry, o: Outcome) {
    AuditedAsDecided(o) && o.request.Some? && Attests(crypto, e, o.request.value, e.content.timestamp)
  }

  /** `after` is `before` with one entry per decided result, in order. */
  ghost predicate Extends(crypto: Crypto, before: seq<Entry>, after: seq<Entry>, decided: seq<Outcome>) {
    && |after| == |before| + |decided|
    && after[..|before|] == before
    && (forall i :: 0 <= i < |decided| ==> Records(crypto, after[|before| + i], decided[i]))
  }

  lemma {:induction false} AppendAllRecords(crypto: Crypto, entries: seq<Entry>, rs: seq<Request>, now: real, i: nat)
    requires i < |rs|
    ensures |AppendAll(crypto, entries, rs, now)| == |entries| + |rs|
    ensures AppendAll(crypto, entries, rs, now)[..|entries|] == entries
    ensures Attests(crypto, AppendAll(crypto, entries, rs, now)[|entries| + i], rs[i], now)
    decreases |rs|
  {
    hide Attests;
    var longer := entries + [NextEntry(crypto, entries, rs[0], now)];
    var all := AppendAll(crypto, entries, rs, now);
    NextEntryAttests(crypto, entries, rs[0], now);
    if |rs| == 1 {
      assert rs[1..] == [];
      assert AppendAll(crypto, longer, rs[1..], now) == longer;
    } else {
      AppendAllRecords(crypto, longer, rs[1..], now, if i == 0 then 0 else i - 1);
      assert all[..|entries|] == all[..|longer|][..|entries|];
      assert all[|entries|] == all[..|longer|][|entries|];
    }
  }

  /** Over any run the chain keeps its past, still verifies, and grows by exactly one entry per
      decided result, flushed results included, in decision order. */
  lemma {:induction false} RunsAreAudited(crypto: Crypto, entries: seq<Entry>, cfg: Config, c: Core, calls: seq<Call>)
    requires SignerSound(crypto) && ChainOk(crypto, entries)
    ensures
      var after := RunEntries(crypto, entries, cfg, c, calls);
      var decided := Decided(Run(cfg, c, calls).1);
      ChainOk(crypto, after) && Extends(crypto, entries, after, decided)
    decreases |calls|
  {
    hide Evaluate;
    if calls != [] {
      var (c1, outs) := Step(cfg, c, calls[0]);
      var now := calls[0].now;
      EvaluateAudited(cfg, c, calls[0].obs, calls[0].oldStatus, now);
      CallIsAudited(crypto, entries, outs, now);
      var mid := AppendAll(crypto, entries, Requests(outs), now);
      var after := RunEntries(crypto, mid, cfg, c1, calls[1..]);
      RunsAreAudited(crypto, mid, cfg, c1, calls[1..]);
      var outs2 := Run(cfg, c1, calls[1..]).1;
      DecidedAppend(outs, outs2);
      JoinRecords(crypto, entries, mid, after, Decided(outs), Decided(outs2));
    }
  }

  lemma CallIsAudited(crypto: Crypto, entries: seq<Entry>, outs: seq<Outcome>, now: real)
    requires SignerSound(crypto) && ChainOk(crypto, entries) && AllAudited(outs)
    ensures
      var mid := AppendAll(crypto, entries, Requests(outs), now);
      ChainOk(crypto, mid) && Extends(crypto, entries, mid, Decided(outs))
  {
    RequestsMatchDecided(outs);
    AppendAllKeepsChain(crypto, entries, Requests(outs), now);
    forall i | 0 <= i < |Decided(outs)|
      ensures Records(crypto, AppendAll(crypto, entries, Requests(outs), now)[|entries| + i], Decided(outs)[i])
    {
      AppendAllRecords(crypto, entries, Requests(outs), now, i);
    }
  }

  lemma JoinRecords(crypto: Crypto, a: seq<Entry>, b: seq<Entry>, c: seq<Entry>, d1: seq<Outcome>, d2: seq<Outcome>)
    requires Extends(crypto, a, b, d1) && Extends(crypto, b, c, d2)
    ensures Extends(crypto, a, c, d1 + d2)
  {
    hide Records;
    assert c[..|a|] == c[..|b|][..|a|];
    forall i | 0 <= i < |d1 + d2|
      ensures Records(crypto, c[|a| + i], (d1 + d2)[i])
    {
      if i < |d1| {
        assert c[|a| + i] == c[..|b|][|a| + i];
      } else {
        assert c[|b| + (i - |d1|)] == c[|a| + i];
      }
    }
  }
}

/** Who may vouch for an accepted observation, over whole runs
    (orchestrator/state_transition_manager.py:367-403, 488-511). */
module TrustRuns {
  import opened Prelude
  import opened Observations
  import opened Equivocation
  import opened Reputation
  import opened WitnessGates
  import opened LruCache
  import opened StateTransition

  /** The manager's documented setting: unknown witnesses weigh one, and one bucket's weight is not
      enough. The default threshold of 2.0 is an instance. */
  ghost predicate StandardTrust(cfg: Config) {
    cfg.neutral == 1.0 && cfg.threshold > 1.0
  }

  /** Two witnesses in different provenance buckets, neither of them in `caught`. */
  ghost predicate CleanPair(cfg: Config, caught: set<string>, obs: Observation) {
    exists i, j :: 0 <= i < |obs.witnesses| && 0 <= j < |obs.witnesses|
      && cfg.bucketOf(obs.witnesses[i].provenance) != cfg.bucketOf(obs.witnesses[j].provenance)
      && obs.witnesses[i].observerId !in caught && obs.witnesses[j].observerId !in caught
  }

  /** The observers that these results caught equivocating. */
  function CaughtBy(outs: seq<Outcome>): set<string> {
    set o | o in outs && o.decision == EquivocationFound :: o.obs.observerId
  }

  /** Each accepted result has a clean pair with respect to everyone caught before it. */
  ghost predicate TrustOk(cfg: Config, caught: set<string>, outs: seq<Outcome>) {
    forall i :: 0 <= i < |outs| && outs[i].accepted ==> CleanPair(cfg, caught + CaughtBy(outs[..i]), outs[i].obs)
  }

  /** The ledger records exactly the caught observers, with negative scores. */
  ghost predicate Trusted(cfg: Config, c: Core, c1: Core, outs: seq<Outcome>) {
    && OnlyPenalties(c1.scores)
    && c1.scores.Keys == c.scores.Keys + CaughtBy(outs)
    && TrustOk(cfg, c.scores.Keys, outs)
  }

  lemma CaughtAppend(a: seq<Outcome>, b: seq<Outcome>)
    ensures CaughtBy(a + b) == CaughtBy(a) + CaughtBy(b)
  {
  }

  lemma TrustedAppend(cfg: Config, c: Core, c1: Core, c2: Core, a: seq<Outcome>, b: seq<Outcome>)
    requires Trusted(cfg, c, c1, a) && Trusted(cfg, c1, c2, b)
    ensures Trusted(cfg, c, c2, a + b)
  {
    hide CaughtBy;
    hide TrustOk;
    hide OnlyPenalties;
    CaughtAppend(a, b);
    TrustOkAppend(cfg, c.scores.Keys, c1.scores.Keys, a, b);
  }

  lemma TrustOkAppend(cfg: Config, caught: set<string>, caught1: set<string>, a: seq<Outcome>, b: seq<Outcome>)
    requires TrustOk(cfg, caught, a) && TrustOk(cfg, caught1, b) && caught1 == caught + CaughtBy(a)
    ensures TrustOk(cfg, caught, a + b)
  {
    hide CaughtBy;
    hide CleanPair;
    var outs := a + b;
    forall i | 0 <= i < |outs| && outs[i].accepted
      ensures CleanPair(cfg, caught + CaughtBy(outs[..i]), outs[i].obs)
    {
      if i < |a| {
        assert outs[..i] == a[..i] && outs[i] == a[i];
      } else {
        var k := i - |a|;
        assert outs[..i] == a + b[..k] && outs[i] == b[k];
        CaughtAppend(a, b[..k]);
        assert caught + CaughtBy(outs[..i]) == caught1 + CaughtBy(b[..k]);
      }
    }
  }

  /** With penalties only, a positive weight means never caught, and no weight exceeds one. */
  lemma ScoreMeansCleanPair(cfg: Config, scores: Scores, obs: Observation)
    requires StandardTrust(cfg) && OnlyPenalties(scores)
    requires Score(cfg.bucketOf, WeightOf(cfg, scores), obs.witnesses) >= cfg.threshold
    ensures CleanPair(cfg, scores.Keys, obs)
  {
    var w := WeightOf(cfg, scores);
    assert forall id :: w(id) == if id in scores then 0.0 else 1.0;
    ScoreNeedsTwoBuckets(cfg.bucketOf, w, obs.witnesses);
  }

  /** What the gates do to the ledger, and what acceptance says about the score. */
  lemma ApplyScores(cfg: Config, c: Core, obs: Observation, oldStatus: string)
    ensures
      var (c1, o) := Apply(cfg, c, obs, oldStatus);
      && o.obs == obs
      && c1.scores == (if o.decision == EquivocationFound then RecordEquivocation(c.scores, obs.observerId) else c.scores)
      && (o.accepted ==> Score(cfg.bucketOf, WeightOf(cfg, c.scores), obs.witnesses) >= cfg.threshold)
  {
    hide Collect;
    hide Retained;
    hide Record;
    hide HasQuorum;
    hide Score;
    hide Signal;
    hide Touch;
  }

  lemma ApplyTrusted(cfg: Config, c: Core, obs: Observation, oldStatus: string)
    requires StandardTrust(cfg) && OnlyPenalties(c.scores)
    ensures
      var (c1, o) := Apply(cfg, c, obs, oldStatus);
      Trusted(cfg, c, c1, [o])
  {
    hide Apply;
    hide CleanPair;
    hide Score;
    ApplyScores(cfg, c, obs, oldStatus);
    var (c1, o) := Apply(cfg, c, obs, oldStatus);
    assert CaughtBy([o]) == if o.decision == EquivocationFound then {obs.observerId} else {};
    assert [o][..0] == [] && CaughtBy([]) == {};
    if o.accepted {
      ScoreMeansCleanPair(cfg, c.scores, obs);
      assert c.scores.Keys + CaughtBy([o][..0]) == c.scores.Keys;
    }
  }

  lemma TrustedNothing(cfg: Config, c: Core, c1: Core)
    requires OnlyPenalties(c.scores) && c1.scores == c.scores
    ensures Trusted(cfg, c, c1, [])
  {
    assert CaughtBy([]) == {};
  }

  lemma TrustedRejection(cfg: Config, c: Core, o: Outcome)
    requires OnlyPenalties(c.scores) && !o.accepted && o.decision != EquivocationFound
    ensures Trusted(cfg, c, c, [o])
  {
    assert CaughtBy([o]) == {};
  }

  lemma ApplyHeldTrusted(cfg: Config, c: Core, held: Held)
    requires StandardTrust(cfg) && OnlyPenalties(c.scores)
    ensures
      var (c1, o) := ApplyHeld(cfg, c, held);
      Trusted(cfg, c, c1, [o])
  {
    ApplyTrusted(cfg, c, held.obs, held.oldStatus);
    hide Apply;
    hide Touch;
    var (c1, o) := Apply(cfg, c, held.obs, held.oldStatus);
    assert [o][..0] == [o.(advanced := true)][..0];
    assert CaughtBy([o]) == CaughtBy([o.(advanced := true)]) by {
      assert [o.(advanced := true)][0] in [o.(advanced := true)];
      assert [o][0] in [o];
    }
    assert TrustOk(cfg, c.scores.Keys, [o.(advanced := true)]) by {
      if o.accepted {
        assert CleanPair(cfg, c.scores.Keys + CaughtBy([o][..0]), [o][0].obs);
      }
    }
  }

  lemma {:induction false} FlushLoopTrusted(cfg: Config, c: Core, pending: Pending, p: string, now: real)
    requires StandardTrust(cfg) && OnlyPenalties(c.scores)
    ensures
      var (c1, left, outs) := FlushLoop(cfg, c, pending, p, now);
      Trusted(cfg, c, c1, outs)
    decreases pending.Keys
  {
    hide ApplyHeld;
    hide Touch;
    TrustedNothing(cfg, c, c);
    if p in c.last.val {
      var next := NextOf(c.last.val[p]);
      if next in pending {
        var held := pending[next];
        var rest := pending - {next};
        assert next in pending.Keys && next !in rest.Keys;
        if held.obs.IsStale(now) {
          TrustedRejection(cfg, c, Reject(held.obs, held.oldStatus, Stale));
          hide Trusted;
        } else if DedupOf(held.obs) in c.seen.val {
          FlushLoopTrusted(cfg, c.(last := Touch(c.last, p, held.obs.Key(), cfg.maxCache)), rest, p, now);
        } else {
          ApplyHeldTrusted(cfg, c, held);
          var (c1, o) := ApplyHeld(cfg, c, held);
          FlushLoopTrusted(cfg, c1, rest, p, now);
          var (c2, left, os) := FlushLoop(cfg, c1, rest, p, now);
          TrustedAppend(cfg, c, c1, c2, [o], os);
          hide Trusted;
        }
      }
    }
  }

  lemma DirectTrusted(cfg: Config, c: Core, obs: Observation, oldStatus: string, now: real)
    requires StandardTrust(cfg) && OnlyPenalties(c.scores)
    ensures
      var (c1, o) := Apply(cfg, c, obs, oldStatus);
      var (c2, os) := Flush(cfg, c1, obs.peerId, now);
      Trusted(cfg, c, c2, [o] + os)
  {
    ApplyTrusted(cfg, c, obs, oldStatus);
    hide Apply;
    hide FlushLoop;
    hide StorePending;
    var (c1, o) := Apply(cfg, c, obs, oldStatus);
    var (c2, os) := Flush(cfg, c1, obs.peerId, now);
    assert Trusted(cfg, c1, c2, os) by {
      if obs.peerId in c1.buffer.val && c1.buffer.val[obs.peerId] != map[] {
        FlushLoopTrusted(cfg, c1, c1.buffer.val[obs.peerId], obs.peerId, now);
      } else {
        TrustedNothing(cfg, c1, c1);
      }
    }
    TrustedAppend(cfg, c, c1, c2, [o], os);
  }

  lemma BufferTrusted(cfg: Config, c: Core, obs: Observation, oldStatus: string, now: real)
    requires OnlyPenalties(c.scores)
    ensures
      var (c1, o) := BufferObservation(cfg, c, obs, oldStatus, now);
      Trusted(cfg, c, c1, [o])
  {
    var (c1, o) := BufferObservation(cfg, c, obs, oldStatus, now);
    TrustedRejection(cfg, c, o);
  }

  lemma StepTrusted(cfg: Config, c: Core, call: Call)
    requires StandardTrust(cfg) && OnlyPenalties(c.scores)
    ensures
      var (c1, outs) := Step(cfg, c, call);
      Trusted(cfg, c, c1, outs)
  {
    hide Apply;
    hide Flush;
    hide BufferObservation;
    hide Trusted;
    TrustedRejection(cfg, c, Reject(call.obs, call.oldStatus, Duplicate));
    TrustedRejection(cfg, c, Reject(call.obs, call.oldStatus, Stale));
    BufferTrusted(cfg, c, call.obs, call.oldStatus, call.now);
    DirectTrusted(cfg, c, call.obs, call.oldStatus, call.now);
  }

  /** In every run, each accepted observation has witnesses in two different provenance buckets that
      no earlier result caught equivocating; and the ledger is exactly the set of observers caught. */
  lemma {:induction false} AcceptedNeedCleanWitnesses(cfg: Config, c: Core, calls: seq<Call>)
    requires StandardTrust(cfg) && OnlyPenalties(c.scores)
    ensures
      var (c1, outs) := Run(cfg, c, calls);
      Trusted(cfg, c, c1, outs)
    decreases |calls|
  {
    if calls == [] {
      TrustedNothing(cfg, c, c);
    } else {
      hide Step;
      StepTrusted(cfg, c, calls[0]);
      var (c1, o1) := Step(cfg, c, calls[0]);
      AcceptedNeedCleanWitnesses(cfg, c1, calls[1..]);
      var (c2, o2) := Run(cfg, c1, calls[1..]);
      TrustedAppend(cfg, c, c1, c2, o1, o2);
      hide Trusted;
    }
  }

  /** The score that the weighted gate compares is at most the number of distinct provenance
      buckets, in every state such a run can reach. */
  lemma ScoreBounded(cfg: Config, c: Core, calls: seq<Call>, obs: Observation)
    requires StandardTrust(cfg) && OnlyPenalties(c.scores)
    ensures
      var c1 := Run(cfg, c, calls).0;
      Score(cfg.bucketOf, WeightOf(cfg, c1.scores), obs.witnesses) <= |BucketSet(cfg.bucketOf, obs.witnesses)| as real
  {
    AcceptedNeedCleanWitnesses(cfg, c, calls);
    hide Run;
    var c1 := Run(cfg, c, calls).0;
    var w := WeightOf(cfg, c1.scores);
    assert forall id :: w(id) <= 1.0;
    ScoreBoundedByBuckets(cfg.bucketOf, w, obs.witnesses);
  }

  /** While two opposite reports of one observer from one provenance are retained for a peer and
      epoch, the pipeline accepts no further report of that observer from that provenance there,
      and each one that reaches the gates costs the observer its standing. */
  lemma ContradictedObserverIsLockedOut(cfg: Config, c: Core, obs: Observation, oldStatus: string, now: real, i: nat, j: nat)
    requires i < |Retained(c.equiv, obs)| && j < |Retained(c.equiv, obs)|
    requires Retained(c.equiv, obs)[i].observerId == Retained(c.equiv, obs)[j].observerId == obs.observerId
    requires Retained(c.equiv, obs)[i].provenance == Retained(c.equiv, obs)[j].provenance == obs.provenance
    requires Retained(c.equiv, obs)[i].kind != Retained(c.equiv, obs)[j].kind
    ensures Apply(cfg, c, obs, oldStatus).1.decision == EquivocationFound
    ensures !Evaluate(cfg, c, obs, oldStatus, now).1[0].accepted
    ensures obs.observerId in Apply(cfg, c, obs, oldStatus).0.scores
  {
    SelfContradictionIsCaught(c.equiv, obs, i, j);
    assert Apply(cfg, c, obs, oldStatus).1.decision == EquivocationFound;
    assert !BufferObservation(cfg, c, obs, oldStatus, now).1.accepted;
    assert !Apply(cfg, c, obs, oldStatus).1.accepted;
    hide Apply;
    hide Flush;
    hide BufferObservation;
  }
}

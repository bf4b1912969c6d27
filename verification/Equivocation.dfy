/** The equivocation window (orchestrator/equivocation.py). */
module Equivocation {
  import opened Prelude
  import opened Observations

  const MAX_OBSERVATIONS_PER_KEY := 50

  datatype Entry = Entry(observerId: string, kind: ObservationType, timestamp: real, provenance: string)

  datatype Evidence = Evidence(
    peerId: string,
    epoch: int,
    observerId: string,
    priorObserverId: string,
    provenance: string,
    pair: (ObservationType, ObservationType),
    timestamps: (real, real))

  type Scope = (string, int)
  type Log = map<Scope, seq<Entry>>

  function ScopeOf(obs: Observation): Scope {
    (obs.peerId, obs.epoch)
  }

  function EntryOf(obs: Observation): Entry {
    Entry(obs.observerId, obs.kind, obs.timestamp, obs.provenance)
  }

  predicate Contradicts(prior: Entry, obs: Observation) {
    prior.observerId == obs.observerId && prior.provenance == obs.provenance && prior.kind != obs.kind
  }

  function EvidenceOf(prior: Entry, obs: Observation): Evidence {
    Evidence(obs.peerId, obs.epoch, obs.observerId, prior.observerId, obs.provenance,
             (obs.kind, prior.kind), (obs.timestamp, prior.timestamp))
  }

  /** The priors a new observation is compared with: a full bucket loses its oldest entry first. */
  function Retained(log: Log, obs: Observation): seq<Entry> {
    var bucket := if ScopeOf(obs) in log then log[ScopeOf(obs)] else [];
    if |bucket| >= MAX_OBSERVATIONS_PER_KEY then bucket[1..] else bucket
  }

  function Collect(priors: seq<Entry>, obs: Observation): seq<Evidence> {
    if priors == [] then []
    else
      var init := Collect(priors[..|priors| - 1], obs);
      var prior := priors[|priors| - 1];
      if Contradicts(prior, obs) then init + [EvidenceOf(prior, obs)] else init
  }

  function Record(log: Log, obs: Observation): Log {
    log[ScopeOf(obs) := Retained(log, obs) + [EntryOf(obs)]]
  }

  function RecordAll(history: seq<Observation>): Log {
    if history == [] then map[]
    else Record(RecordAll(history[..|history| - 1]), history[|history| - 1])
  }

  /** The entries that a history holds for one scope, oldest first. */
  function EntriesFor(history: seq<Observation>, scope: Scope): seq<Entry> {
    if history == [] then []
    else
      var init := EntriesFor(history[..|history| - 1], scope);
      var obs := history[|history| - 1];
      if ScopeOf(obs) == scope then init + [EntryOf(obs)] else init
  }

  /** After any history a bucket is exactly the last (at most 50) observations of its scope. */
  lemma {:induction false} WindowIsSuffix(history: seq<Observation>, scope: Scope)
    ensures (scope in RecordAll(history)) == (EntriesFor(history, scope) != [])
    ensures scope in RecordAll(history) ==>
              RecordAll(history)[scope] == LastN(MAX_OBSERVATIONS_PER_KEY, EntriesFor(history, scope))
  {
    if history != [] {
      var front, obs := history[..|history| - 1], history[|history| - 1];
      WindowIsSuffix(front, scope);
      if ScopeOf(obs) == scope {
        var all := EntriesFor(front, scope);
        var kept := Retained(RecordAll(front), obs);
        assert kept + [EntryOf(obs)] == LastN(MAX_OBSERVATIONS_PER_KEY, all + [EntryOf(obs)]);
      }
    }
  }

  /** The evidence names both reports: the new one first. */
  ghost predicate Proves(prior: Entry, obs: Observation, e: Evidence) {
    && prior.observerId == obs.observerId && prior.provenance == obs.provenance && prior.kind != obs.kind
    && e.peerId == obs.peerId && e.epoch == obs.epoch
    && e.observerId == obs.observerId && e.priorObserverId == prior.observerId && e.provenance == obs.provenance
    && e.pair.0 == obs.kind && e.pair.1 == prior.kind
    && e.timestamps.0 == obs.timestamp && e.timestamps.1 == prior.timestamp
  }

  ghost predicate ContradictedBy(priors: seq<Entry>, obs: Observation, e: Evidence) {
    exists i :: 0 <= i < |priors| && Proves(priors[i], obs, e)
  }

  function Hits(priors: seq<Entry>, obs: Observation): set<int> {
    set i | 0 <= i < |priors| && Contradicts(priors[i], obs)
  }

  lemma ProvesExactly(prior: Entry, obs: Observation, e: Evidence)
    ensures Proves(prior, obs, e) <==> Contradicts(prior, obs) && e == EvidenceOf(prior, obs)
  {
  }

  lemma {:induction false} EvidenceMembers(priors: seq<Entry>, obs: Observation, e: Evidence)
    ensures e in Collect(priors, obs) <==> ContradictedBy(priors, obs, e)
  {
    hide Proves;
    hide Contradicts;
    hide EvidenceOf;
    if priors != [] {
      var n := |priors| - 1;
      var front := priors[..n];
      ProvesExactly(priors[n], obs, e);
      EvidenceMembers(front, obs, e);
      assert priors == front + [priors[n]];
      if ContradictedBy(front, obs, e) {
        var i :| 0 <= i < |front| && Proves(front[i], obs, e);
        assert priors[i] == front[i];
      }
    }
  }

  lemma {:induction false} EvidenceCount(priors: seq<Entry>, obs: Observation)
    ensures |Collect(priors, obs)| == |Hits(priors, obs)|
  {
    if priors == [] {
      assert Hits(priors, obs) == {};
    } else {
      var n := |priors| - 1;
      EvidenceCount(priors[..n], obs);
      if Contradicts(priors[n], obs) {
        assert Hits(priors, obs) == Hits(priors[..n], obs) + {n};
      } else {
        assert Hits(priors, obs) == Hits(priors[..n], obs);
      }
    }
  }

  /** The evidence is exactly the contradicting priors, one item each. */
  lemma EvidenceIsExact(priors: seq<Entry>, obs: Observation)
    ensures forall e :: e in Collect(priors, obs) <==> ContradictedBy(priors, obs, e)
    ensures |Collect(priors, obs)| == |Hits(priors, obs)|
  {
    forall e
      ensures e in Collect(priors, obs) <==> ContradictedBy(priors, obs, e)
    {
      EvidenceMembers(priors, obs, e);
    }
    EvidenceCount(priors, obs);
  }

  /** The evidence comes in the order of the priors. */
  lemma {:induction false} EvidenceInOrder(priors: seq<Entry>, obs: Observation) returns (at: seq<nat>)
    ensures |at| == |Collect(priors, obs)|
    ensures forall m :: 0 <= m < |at| ==> at[m] < |priors| && Proves(priors[at[m]], obs, Collect(priors, obs)[m])
    ensures forall m, n :: 0 <= m < n < |at| ==> at[m] < at[n]
  {
    hide Proves;
    hide Contradicts;
    hide EvidenceOf;
    at := [];
    if priors != [] {
      var n := |priors| - 1;
      at := EvidenceInOrder(priors[..n], obs);
      ProvesExactly(priors[n], obs, EvidenceOf(priors[n], obs));
      if Contradicts(priors[n], obs) {
        at := at + [n];
      }
    }
  }

  /** Once two opposite reports of one observer from one provenance are in the window, every further
      report of it in that scope is contradicted. */
  lemma SelfContradictionIsCaught(log: Log, obs: Observation, i: nat, j: nat)
    requires i < |Retained(log, obs)| && j < |Retained(log, obs)|
    requires Retained(log, obs)[i].observerId == Retained(log, obs)[j].observerId == obs.observerId
    requires Retained(log, obs)[i].provenance == Retained(log, obs)[j].provenance == obs.provenance
    requires Retained(log, obs)[i].kind != Retained(log, obs)[j].kind
    ensures Collect(Retained(log, obs), obs) != []
  {
    var priors := Retained(log, obs);
    var k := if priors[i].kind != obs.kind then i else j;
    assert Contradicts(priors[k], obs);
    EvidenceMembers(priors, obs, EvidenceOf(priors[k], obs));
  }

  /** The log object. */
  class EquivocationLog {
    var observations: Log

    constructor ()
      ensures observations == map[]
    {
      observations := map[];
    }

    method RecordObservation(obs: Observation) returns (evidences: seq<Evidence>)
      modifies this
      ensures observations == Record(old(observations), obs)
      ensures evidences == Collect(Retained(old(observations), obs), obs)
    {
      var key := (obs.peerId, obs.epoch);
      var bucket := if key in observations then observations[key] else [];
      if |bucket| >= MAX_OBSERVATIONS_PER_KEY {
        bucket := bucket[1..];
      }
      evidences := [];
      for n := 0 to |bucket|
        invariant evidences == Collect(bucket[..n], obs)
      {
        assert bucket[..n + 1][..n] == bucket[..n];
        var prior := bucket[n];
        if prior.observerId != obs.observerId { continue; }
        if prior.provenance != obs.provenance { continue; }
        if prior.kind == obs.kind { continue; }
        evidences := evidences + [EvidenceOf(prior, obs)];
      }
      assert bucket[..|bucket|] == bucket;
      observations := observations[key := bucket + [EntryOf(obs)]];
    }
  }
}

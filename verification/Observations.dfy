/** Peer observations and the monotonic gate
    (orchestrator/membership.py, orchestrator/monotonic_gate.py). */
module Observations {
  import opened Prelude

  datatype ObservationType = Reachable | Unreachable

  /** One observer's report about one peer. `rest` stands for the fields that only the serialized
      form looks at, so two observations serialize alike exactly when they are equal. */
  datatype Observation = Observation(
    peerId: string,
    epoch: int,
    sequence: int,
    observerId: string,
    provenance: string,
    kind: ObservationType,
    timestamp: real,
    ttl: Option<int>,
    witnesses: seq<Observation>,
    rest: string)
  {
    function Key(): (int, int) {
      (epoch, sequence)
    }

    /** Expired: a missing or negative time to live never expires. */
    predicate IsStale(now: real) {
      ttl.Some? && ttl.value >= 0 && now - timestamp > ttl.value as real
    }
  }

  /** The deadline: an observation is expired exactly after its time stamp plus its time to live, and
      without a time to live, or with a negative one, never. */
  lemma ExpiresAfterItsDeadline(obs: Observation, now: real)
    ensures obs.IsStale(now) <==> obs.ttl.Some? && obs.ttl.value >= 0 && obs.timestamp + obs.ttl.value as real < now
  {
  }

  const SKEW_TOLERANCE_SECONDS := 30.0

  predicate IsNewer(current: Observation, new_: Observation) {
    if new_.epoch > current.epoch then true
    else if new_.epoch < current.epoch then false
    else if new_.sequence > current.sequence then true
    else if new_.sequence < current.sequence then false
    else new_.timestamp > current.timestamp + SKEW_TOLERANCE_SECONDS
  }

  /** Lexicographic order on (epoch, sequence). */
  predicate Before(a: (int, int), b: (int, int)) {
    a.0 < b.0 || (a.0 == b.0 && a.1 < b.1)
  }

  predicate AtOrBefore(a: (int, int), b: (int, int)) {
    a == b || Before(a, b)
  }

  /** The gate, exactly: a later key in lexicographic order supersedes an earlier one, and under the same key
      a time stamp that is more than thirty seconds later. */
  lemma IsNewerExactly(current: Observation, new_: Observation)
    ensures IsNewer(current, new_) <==>
      || current.epoch < new_.epoch
      || (current.epoch == new_.epoch && current.sequence < new_.sequence)
      || (current.epoch == new_.epoch && current.sequence == new_.sequence && new_.timestamp - current.timestamp > 30.0)
  {
  }

  /** The gate is a strict partial order: no observation supersedes itself, two observations never
      supersede each other, and superseding is transitive. */
  lemma IsNewerIsStrictOrder(a: Observation, b: Observation, c: Observation)
    ensures !IsNewer(a, a)
    ensures IsNewer(a, b) ==> !IsNewer(b, a)
    ensures IsNewer(a, b) && IsNewer(b, c) ==> IsNewer(a, c)
  {
  }
}

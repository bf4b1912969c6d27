/** The decision pipeline as functions on values
    (orchestrator/state_transition_manager.py:135-576). Each function mirrors one method of the
    manager; the audit log is a sink fed by the `request` of every outcome. */
module StateTransition {
  import opened Prelude
  import opened LruCache
  import opened Observations
  import opened Equivocation
  import opened Reputation
  import opened KBuckets
  import opened WitnessGates
  import AuditChain

  type Key = (int, int)
  type DedupKey = (string, int, int, string)

  /** A held-back observation with the status the caller reported for it. */
  datatype Held = Held(obs: Observation, oldStatus: string)

  type Pending = map<Key, Held>

  datatype Config = Config(
    space: Space,
    bucketOf: string -> string,
    neutral: real,
    threshold: real,
    proximityBits: int,
    maxCache: int,
    bufferMax: int)

  /** Everything the pipeline remembers between calls. */
  datatype Core = Core(
    seen: Lru<DedupKey, ()>,
    last: Lru<string, Key>,
    buffer: Lru<string, Pending>,
    equiv: Log,
    scores: Scores,
    table: Table)

  datatype Decision = Approved | EquivocationFound | InsufficientQuorum | Stale | Duplicate | SybilFlagged | Buffered

  /** One result: the direct result of a call or one of its flushed results. `advanced` is the
      "processed_watermark_advanced" mark. */
  datatype Outcome = Outcome(
    obs: Observation,
    oldStatus: string,
    decision: Decision,
    accepted: bool,
    evidences: seq<Evidence>,
    score: Option<real>,
    signal: Option<SybilSignal>,
    request: Option<AuditChain.Request>,
    advanced: bool)

  function StatusLabel(d: Decision): string {
    match d
    case Approved => "approved"
    case EquivocationFound => "equivocation"
    case InsufficientQuorum => "insufficient_quorum"
    case Stale => "stale"
    case Duplicate => "duplicate"
    case SybilFlagged => "sybil_flagged"
    case Buffered => "buffered"
  }

  function KindLabel(k: ObservationType): string {
    match k
    case Reachable => "REACHABLE"
    case Unreachable => "UNREACHABLE"
  }

  function DedupOf(obs: Observation): DedupKey {
    (obs.peerId, obs.epoch, obs.sequence, obs.observerId)
  }

  function WeightOf(cfg: Config, scores: Scores): string -> real {
    id => Weight(scores, cfg.neutral, id)
  }

  function Reject(obs: Observation, oldStatus: string, d: Decision): Outcome {
    Outcome(obs, oldStatus, d, false, [], None, None,
            Some(AuditChain.Request(obs.peerId, oldStatus, StatusLabel(d), [])), false)
  }

  function Hold(obs: Observation, oldStatus: string): Outcome {
    Outcome(obs, oldStatus, Buffered, false, [], None, None, None, false)
  }

  /** Advance the replay cache and the watermark over one observation. */
  function Mark(cfg: Config, c: Core, obs: Observation): Core {
    c.(seen := Touch(c.seen, DedupOf(obs), (), cfg.maxCache),
       last := Touch(c.last, obs.peerId, obs.Key(), cfg.maxCache))
  }

  function Apply(cfg: Config, c: Core, obs: Observation, oldStatus: string): (Core, Outcome) {
    var evidences := Collect(Retained(c.equiv, obs), obs);
    var c1 := c.(equiv := Record(c.equiv, obs));
    if evidences != [] then
      (c1.(scores := RecordEquivocation(c.scores, obs.observerId)),
       Reject(obs, oldStatus, EquivocationFound).(evidences := evidences))
    else if !HasQuorum(cfg.bucketOf, obs) then
      (c1, Reject(obs, oldStatus, InsufficientQuorum))
    else
      var score := Score(cfg.bucketOf, WeightOf(cfg, c.scores), obs.witnesses);
      if score < cfg.threshold then
        (c1, Reject(obs, oldStatus, InsufficientQuorum).(score := Some(score)))
      else
        var signal := Signal(cfg.space, cfg.proximityBits, c.table, obs);
        (Mark(cfg, c1, obs).(table := Update(cfg.space, c.table, obs.peerId, obs.timestamp)),
         Outcome(obs, oldStatus, if signal.NoSignal? then Approved else SybilFlagged, true, [],
                 Some(score), Some(signal),
                 Some(AuditChain.Request(obs.peerId, oldStatus, KindLabel(obs.kind), ObserversOf(obs.witnesses))), false))
  }

  /** One turn of the flush for an entry that is neither expired nor already seen: apply it, and
      advance the watermark even when a gate rejects it. */
  function ApplyHeld(cfg: Config, c: Core, held: Held): (Core, Outcome) {
    var p := held.obs.peerId;
    var (c1, o) := Apply(cfg, c, held.obs, held.oldStatus);
    if (p in c.last.val) == (p in c1.last.val) && (p in c.last.val ==> c.last.val[p] == c1.last.val[p])
    then (Mark(cfg, c1, held.obs), o.(advanced := true))
    else (c1, o)
  }

  /** The key that directly follows a watermark. */
  function NextOf(k: Key): Key {
    (k.0, k.1 + 1)
  }

  function FlushLoop(cfg: Config, c: Core, pending: Pending, p: string, now: real): (Core, Pending, seq<Outcome>)
    decreases pending.Keys
  {
    if p !in c.last.val then (c, pending, [])
    else
      var next := NextOf(c.last.val[p]);
      if next !in pending then (c, pending, [])
      else
        var held := pending[next];
        var rest := pending - {next};
        assert next in pending.Keys && next !in rest.Keys;
        if held.obs.IsStale(now) then (c, rest, [Reject(held.obs, held.oldStatus, Stale)])
        else if DedupOf(held.obs) in c.seen.val then
          FlushLoop(cfg, c.(last := Touch(c.last, p, held.obs.Key(), cfg.maxCache)), rest, p, now)
        else
          var (c1, o) := ApplyHeld(cfg, c, held);
          var (c2, left, os) := FlushLoop(cfg, c1, rest, p, now);
          (c2, left, [o] + os)
  }

  function StorePending(buffer: Lru<string, Pending>, p: string, pending: Pending): Lru<string, Pending> {
    if pending == map[] then Delete(buffer, p) else Put(buffer, p, pending)
  }

  function Flush(cfg: Config, c: Core, p: string, now: real): (Core, seq<Outcome>) {
    if p !in c.buffer.val || c.buffer.val[p] == map[] then (c, [])
    else
      var (c1, left, os) := FlushLoop(cfg, c, c.buffer.val[p], p, now);
      (c1.(buffer := StorePending(c1.buffer, p, left)), os)
  }

  function BufferObservation(cfg: Config, c: Core, obs: Observation, oldStatus: string, now: real): (Core, Outcome) {
    if obs.IsStale(now) then (c, Reject(obs, oldStatus, Stale))
    else
      var pending := if obs.peerId in c.buffer.val then c.buffer.val[obs.peerId] else map[];
      if obs.Key() in pending then
        (c, if pending[obs.Key()].obs != obs then Reject(obs, oldStatus, Duplicate) else Hold(obs, oldStatus))
      else if |pending| >= cfg.bufferMax then (c, Reject(obs, oldStatus, Stale))
      else
        (c.(buffer := Touch(c.buffer, obs.peerId, pending[obs.Key() := Held(obs, oldStatus)], cfg.maxCache)),
         Hold(obs, oldStatus))
  }

  function Evaluate(cfg: Config, c: Core, obs: Observation, oldStatus: string, now: real): (Core, seq<Outcome>) {
    if DedupOf(obs) in c.seen.val then (c, [Reject(obs, oldStatus, Duplicate)])
    else if obs.peerId in c.last.val && AtOrBefore(obs.Key(), c.last.val[obs.peerId]) then
      (c, [Reject(obs, oldStatus, Stale)])
    else if obs.peerId in c.last.val && obs.epoch == c.last.val[obs.peerId].0
            && obs.sequence > c.last.val[obs.peerId].1 + 1 then
      var (c1, o) := BufferObservation(cfg, c, obs, oldStatus, now);
      (c1, [o])
    else if obs.IsStale(now) then (c, [Reject(obs, oldStatus, Stale)])
    else
      var (c1, o) := Apply(cfg, c, obs, oldStatus);
      var (c2, os) := Flush(cfg, c1, obs.peerId, now);
      (c2, [o] + os)
  }

  // ---- runs ----

  datatype Call = Call(obs: Observation, oldStatus: string, now: real)

  function Step(cfg: Config, c: Core, call: Call): (Core, seq<Outcome>) {
    Evaluate(cfg, c, call.obs, call.oldStatus, call.now)
  }

  /** A run of calls, with all results in the order they were decided. */
  function Run(cfg: Config, c: Core, calls: seq<Call>): (Core, seq<Outcome>)
    decreases |calls|
  {
    if calls == [] then (c, [])
    else
      var (c1, o1) := Step(cfg, c, calls[0]);
      var (c2, o2) := Run(cfg, c1, calls[1..]);
      (c2, o1 + o2)
  }

  /** The results that are not mere hold-backs, in order. */
  function Decided(outs: seq<Outcome>): seq<Outcome> {
    if outs == [] then []
    else (if outs[0].decision.Buffered? then [] else [outs[0]]) + Decided(outs[1..])
  }

  lemma {:induction false} DecidedAppend(a: seq<Outcome>, b: seq<Outcome>)
    ensures Decided(a + b) == Decided(a) + Decided(b)
  {
    if a == [] {
      assert a + b == b;
    } else {
      assert (a + b)[1..] == a[1..] + b && (a + b)[0] == a[0];
      DecidedAppend(a[1..], b);
      var head := if a[0].decision.Buffered? then [] else [a[0]];
      assert Decided(a + b) == head + Decided(a[1..] + b);
      assert Decided(a) == head + Decided(a[1..]);
    }
  }

  function Fresh(): Core {
    Core(Empty(), Empty(), Empty(), map[], map[], map[])
  }
}

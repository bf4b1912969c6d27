/** The watermark discipline over whole runs of the decision pipeline. */
module WatermarkRuns {
  import opened Prelude
  import opened LruCache
  import opened Observations
  import opened StateTransition
  import opened WatermarkInvariant

  // ---- what every call keeps, whether or not the peer is tracked ----

  ghost predicate CachesOk(cfg: Config, c: Core) {
    WellFormed(c.seen, cfg.maxCache) && WellFormed(c.last, cfg.maxCache)
  }

  lemma ApplyForm(cfg: Config, c: Core, obs: Observation, oldStatus: string)
    requires CachesOk(cfg, c)
    ensures
      var c1 := Apply(cfg, c, obs, oldStatus).0;
      CachesOk(cfg, c1) && OthersKept(c, c1, obs.peerId) && c1.buffer == c.buffer
  {
    ApplyEffect(cfg, c, obs, oldStatus);
    hide Apply;
    var (c1, o) := Apply(cfg, c, obs, oldStatus);
    if o.accepted {
      MarkEffect(cfg, c, obs, c1);
    }
  }

  lemma ApplyHeldForm(cfg: Config, c: Core, held: Held)
    requires CachesOk(cfg, c)
    ensures
      var (c1, o) := ApplyHeld(cfg, c, held);
      && CachesOk(cfg, c1) && OthersKept(c, c1, held.obs.peerId) && c1.buffer == c.buffer
      && o.obs == held.obs && o.request.Some? && o.decision != Buffered
  {
    ApplyForm(cfg, c, held.obs, held.oldStatus);
    ApplyEffect(cfg, c, held.obs, held.oldStatus);
    hide Apply;
    var c1 := Apply(cfg, c, held.obs, held.oldStatus).0;
    var c2 := Mark(cfg, c1, held.obs);
    MarkEffect(cfg, c1, held.obs, c2);
    hide WellFormed;
    hide Mark;
    hide OthersKept;
    OthersKeptTransitive(c, c1, c2, held.obs.peerId);
  }

  /** Results of peer p, all audited. */
  ghost predicate AuditedFor(outs: seq<Outcome>, p: string) {
    forall i :: 0 <= i < |outs| ==> outs[i].obs.peerId == p && outs[i].request.Some? && outs[i].decision != Buffered
  }

  lemma DropNext(pending: Pending, p: string, k: Key)
    requires PendingOk(pending, p) && k in pending
    ensures PendingOk(pending - {k}, p) && (pending - {k}).Keys < pending.Keys
    ensures pending[k].obs.peerId == p
  {
    assert k in pending.Keys && k !in (pending - {k}).Keys;
  }

  /** What the flush loop keeps from c to c1. */
  ghost predicate LoopKept(cfg: Config, c: Core, c1: Core, left: Pending, p: string) {
    CachesOk(cfg, c1) && PendingOk(left, p) && OthersKept(c, c1, p) && c1.buffer == c.buffer
  }

  lemma LoopKeptNext(cfg: Config, c: Core, c1: Core, c2: Core, left: Pending, p: string)
    requires OthersKept(c, c1, p) && c1.buffer == c.buffer && LoopKept(cfg, c1, c2, left, p)
    ensures LoopKept(cfg, c, c2, left, p)
  {
    hide CachesOk;
    hide PendingOk;
    hide OthersKept;
    OthersKeptTransitive(c, c1, c2, p);
  }

  lemma LoopKeptIdle(cfg: Config, c: Core, left: Pending, p: string)
    requires CachesOk(cfg, c) && PendingOk(left, p)
    ensures LoopKept(cfg, c, c, left, p)
  {
  }

  lemma {:induction false} FlushLoopForm(cfg: Config, c: Core, pending: Pending, p: string, now: real)
    requires CachesOk(cfg, c) && PendingOk(pending, p)
    ensures
      var (c1, left, outs) := FlushLoop(cfg, c, pending, p, now);
      LoopKept(cfg, c, c1, left, p)
    decreases pending.Keys
  {
    hide PendingOk;
    hide ApplyHeld;
    hide OthersKept;
    hide CachesOk;
    hide Touch;
    hide LoopKept;
    LoopKeptIdle(cfg, c, pending, p);
    if p in c.last.val && NextOf(c.last.val[p]) in pending {
      var held := pending[NextOf(c.last.val[p])];
      var rest := pending - {NextOf(c.last.val[p])};
      DropNext(pending, p, NextOf(c.last.val[p]));
      LoopKeptIdle(cfg, c, rest, p);
      if held.obs.IsStale(now) {
      } else if DedupOf(held.obs) in c.seen.val {
        var c1 := c.(last := Touch(c.last, p, held.obs.Key(), cfg.maxCache));
        TouchLastForm(cfg, c, p, held.obs.Key(), c1);
        FlushLoopForm(cfg, c1, rest, p, now);
        var (c2, left, os) := FlushLoop(cfg, c1, rest, p, now);
        LoopKeptNext(cfg, c, c1, c2, left, p);
      } else {
        ApplyHeldForm(cfg, c, held);
        var (c1, o) := ApplyHeld(cfg, c, held);
        FlushLoopForm(cfg, c1, rest, p, now);
        var (c2, left, os) := FlushLoop(cfg, c1, rest, p, now);
        LoopKeptNext(cfg, c, c1, c2, left, p);
      }
    }
  }

  lemma TouchLastForm(cfg: Config, c: Core, p: string, k: Key, c1: Core)
    requires CachesOk(cfg, c) && c1 == c.(last := Touch(c.last, p, k, cfg.maxCache))
    ensures CachesOk(cfg, c1) && OthersKept(c, c1, p)
  {
    TouchEffect(c.last, p, k, cfg.maxCache);
    hide Touch;
    hide WellFormed;
  }

  lemma AuditedCons(o: Outcome, os: seq<Outcome>, p: string)
    requires o.obs.peerId == p && o.request.Some? && o.decision != Buffered && AuditedFor(os, p)
    ensures AuditedFor([o] + os, p)
  {
  }

  lemma {:induction false} FlushLoopAudited(cfg: Config, c: Core, pending: Pending, p: string, now: real)
    requires CachesOk(cfg, c) && PendingOk(pending, p)
    ensures AuditedFor(FlushLoop(cfg, c, pending, p, now).2, p)
    decreases pending.Keys
  {
    hide PendingOk;
    hide ApplyHeld;
    hide OthersKept;
    hide CachesOk;
    hide Touch;
    if p in c.last.val && NextOf(c.last.val[p]) in pending {
      var held := pending[NextOf(c.last.val[p])];
      var rest := pending - {NextOf(c.last.val[p])};
      DropNext(pending, p, NextOf(c.last.val[p]));
      if held.obs.IsStale(now) {
      } else if DedupOf(held.obs) in c.seen.val {
        var c1 := c.(last := Touch(c.last, p, held.obs.Key(), cfg.maxCache));
        TouchLastForm(cfg, c, p, held.obs.Key(), c1);
        FlushLoopAudited(cfg, c1, rest, p, now);
      } else {
        ApplyHeldForm(cfg, c, held);
        var (c1, o) := ApplyHeld(cfg, c, held);
        FlushLoopAudited(cfg, c1, rest, p, now);
        AuditedCons(o, FlushLoop(cfg, c1, rest, p, now).2, p);
      }
    }
  }

  lemma NothingAudited(p: string)
    ensures AuditedFor([], p)
  {
  }

  lemma FlushForm(cfg: Config, c: Core, p: string, now: real)
    requires WellFormedCore(cfg, c)
    ensures
      var (c1, outs) := Flush(cfg, c, p, now);
      WellFormedCore(cfg, c1) && OthersKept(c, c1, p) && AuditedFor(outs, p)
  {
    hide FlushLoop;
    hide StorePending;
    hide WellFormed;
    hide Touch;
    NothingAudited(p);
    if p in c.buffer.val && c.buffer.val[p] != map[] {
      hide AuditedFor;
      var pending := c.buffer.val[p];
      FlushLoopForm(cfg, c, pending, p, now);
      FlushLoopAudited(cfg, c, pending, p, now);
      var (c1, left, outs) := FlushLoop(cfg, c, pending, p, now);
      StorePendingEffect(cfg, c.buffer, p, left);
    }
  }

  lemma StoreForm(cfg: Config, c: Core, p: string, added: Pending, c1: Core)
    requires WellFormedCore(cfg, c) && PendingOk(added, p) && added != map[]
    requires c1 == c.(buffer := Touch(c.buffer, p, added, cfg.maxCache))
    ensures WellFormedCore(cfg, c1) && OthersKept(c, c1, p)
  {
    hide Touch;
    hide WellFormed;
    hide PendingOk;
    TouchEffect(c.buffer, p, added, cfg.maxCache);
  }

  /** Every result of a call is about its peer, and exactly the held-back ones go unaudited. */
  ghost predicate ReportedFor(outs: seq<Outcome>, p: string) {
    forall i :: 0 <= i < |outs| ==> outs[i].obs.peerId == p && (outs[i].request.Some? <==> outs[i].decision != Buffered)
  }

  /** What every call about p keeps. */
  ghost predicate Kept(cfg: Config, c: Core, c1: Core, outs: seq<Outcome>, p: string) {
    WellFormedCore(cfg, c1) && OthersKept(c, c1, p) && ReportedFor(outs, p)
  }

  lemma KeptIdle(cfg: Config, c: Core, o: Outcome)
    requires WellFormedCore(cfg, c) && (o.request.Some? <==> o.decision != Buffered)
    ensures Kept(cfg, c, c, [o], o.obs.peerId)
  {
  }

  lemma BufferForm(cfg: Config, c: Core, obs: Observation, oldStatus: string, now: real)
    requires WellFormedCore(cfg, c)
    ensures
      var (c1, o) := BufferObservation(cfg, c, obs, oldStatus, now);
      Kept(cfg, c, c1, [o], obs.peerId)
  {
    var p := obs.peerId;
    var pending := PendingOf(c, p);
    var added := pending[obs.Key() := Held(obs, oldStatus)];
    assert obs.Key() in added;
    assert PendingOk(added, p);
    var c1 := c.(buffer := Touch(c.buffer, p, added, cfg.maxCache));
    StoreForm(cfg, c, p, added, c1);
    assert Kept(cfg, c, c1, [Hold(obs, oldStatus)], p);
    KeptIdle(cfg, c, Hold(obs, oldStatus));
    KeptIdle(cfg, c, Reject(obs, oldStatus, Duplicate));
    KeptIdle(cfg, c, Reject(obs, oldStatus, Stale));
    hide Kept;
    hide WellFormedCore;
    hide OthersKept;
    hide Touch;
    hide PendingOk;
  }

  lemma DirectForm(cfg: Config, c: Core, obs: Observation, oldStatus: string, now: real)
    requires WellFormedCore(cfg, c)
    ensures
      var (c1, o) := Apply(cfg, c, obs, oldStatus);
      var (c2, os) := Flush(cfg, c1, obs.peerId, now);
      Kept(cfg, c, c2, [o] + os, obs.peerId)
  {
    hide Apply;
    hide Flush;
    hide OthersKept;
    hide WellFormed;
    ApplyForm(cfg, c, obs, oldStatus);
    ApplyEffect(cfg, c, obs, oldStatus);
    var (c1, o) := Apply(cfg, c, obs, oldStatus);
    DirectFlushed(cfg, c, obs, o, c1, now);
  }

  lemma DirectFlushed(cfg: Config, c: Core, obs: Observation, o: Outcome, c1: Core, now: real)
    requires WellFormedCore(cfg, c1) && OthersKept(c, c1, obs.peerId)
    requires o.obs == obs && o.request.Some? && o.decision != Buffered
    ensures
      var (c2, os) := Flush(cfg, c1, obs.peerId, now);
      Kept(cfg, c, c2, [o] + os, obs.peerId)
  {
    hide Flush;
    hide OthersKept;
    hide WellFormedCore;
    FlushForm(cfg, c1, obs.peerId, now);
    OthersKeptTransitive(c, c1, Flush(cfg, c1, obs.peerId, now).0, obs.peerId);
  }

  lemma EvaluateForm(cfg: Config, c: Core, obs: Observation, oldStatus: string, now: real)
    requires WellFormedCore(cfg, c)
    ensures
      var (c1, outs) := Evaluate(cfg, c, obs, oldStatus, now);
      Kept(cfg, c, c1, outs, obs.peerId)
  {
    hide WellFormedCore;
    hide Apply;
    hide Flush;
    hide BufferObservation;
    hide Kept;
    KeptIdle(cfg, c, Reject(obs, oldStatus, Duplicate));
    KeptIdle(cfg, c, Reject(obs, oldStatus, Stale));
    BufferForm(cfg, c, obs, oldStatus, now);
    DirectForm(cfg, c, obs, oldStatus, now);
  }

  // ---- runs ----

  /** Peer p is never evicted from the watermark cache during the run. */
  ghost predicate CachedThroughout(cfg: Config, c: Core, calls: seq<Call>, p: string)
    decreases |calls|
  {
    calls == [] ||
    (var c1 := Step(cfg, c, calls[0]).0;
     (p in c.last.val ==> p in c1.last.val) && CachedThroughout(cfg, c1, calls[1..], p))
  }

  /** The results about one peer. */
  function About(outs: seq<Outcome>, p: string): seq<Outcome> {
    if outs == [] then []
    else (if outs[0].obs.peerId == p then [outs[0]] else []) + About(outs[1..], p)
  }

  lemma {:induction false} AboutAppend(a: seq<Outcome>, b: seq<Outcome>, p: string)
    ensures About(a + b, p) == About(a, p) + About(b, p)
  {
    if a == [] {
      assert a + b == b;
    } else {
      assert (a + b)[1..] == a[1..] + b && (a + b)[0] == a[0];
      AboutAppend(a[1..], b, p);
      var head := if a[0].obs.peerId == p then [a[0]] else [];
      assert About(a + b, p) == head + About(a[1..] + b, p);
      assert About(a, p) == head + About(a[1..], p);
    }
  }

  lemma {:induction false} AboutOne(outs: seq<Outcome>, q: string, p: string)
    requires forall i :: 0 <= i < |outs| ==> outs[i].obs.peerId == q
    ensures About(outs, p) == if p == q then outs else []
  {
    if outs != [] {
      AboutOne(outs[1..], q, p);
    }
  }

  /** A peer stays tracked through a call as long as the call does not evict it. */
  lemma StepTracks(cfg: Config, c: Core, call: Call, p: string)
    requires WellFormedCore(cfg, c) && Tracked(c, p)
    requires p in c.last.val ==> p in Step(cfg, c, call).0.last.val
    ensures
      var (c1, outs) := Step(cfg, c, call);
      && WellFormedCore(cfg, c1) && Tracked(c1, p)
      && (p in c.last.val ==> AtOrBefore(c.last.val[p], c1.last.val[p]))
      && (cfg.maxCache >= 1 ==> Chain(MarkOf(c, p), About(outs, p), MarkOf(c1, p)))
  {
    hide Evaluate;
    var (c1, outs) := Step(cfg, c, call);
    EvaluateForm(cfg, c, call.obs, call.oldStatus, call.now);
    AboutOne(outs, call.obs.peerId, p);
    hide WellFormedCore;
    if p == call.obs.peerId {
      EvaluateInvariant(cfg, c, call.obs, call.oldStatus, call.now);
    } else {
      OtherStaysTracked(c, c1, call.obs.peerId, p);
    }
  }

  lemma OtherStaysTracked(c: Core, c1: Core, q: string, p: string)
    requires p != q && OthersKept(c, c1, q) && Tracked(c, p)
    requires p in c.last.val ==> p in c1.last.val
    ensures Tracked(c1, p) && MarkOf(c1, p) == MarkOf(c, p)
  {
    assert forall d: DedupKey :: d in c1.seen.val && d.0 == p ==> d in c.seen.val;
  }

  /** Watermark discipline: over every run during which a peer's watermark stays cached, the
      invariant holds at the end and the peer's advancing results move the watermark one legal step
      at a time. */
  lemma {:induction false} RunTracks(cfg: Config, c: Core, calls: seq<Call>, p: string)
    requires WellFormedCore(cfg, c) && Tracked(c, p) && cfg.maxCache >= 1
    requires CachedThroughout(cfg, c, calls, p)
    ensures
      var (c1, outs) := Run(cfg, c, calls);
      && WellFormedCore(cfg, c1) && Tracked(c1, p)
      && Chain(MarkOf(c, p), About(outs, p), MarkOf(c1, p))
      && (p in c.last.val ==> p in c1.last.val && AtOrBefore(c.last.val[p], c1.last.val[p]))
    decreases |calls|
  {
    if calls != [] {
      hide WellFormedCore;
      hide Tracked;
      hide Step;
      StepTracks(cfg, c, calls[0], p);
      var (c1, o1) := Step(cfg, c, calls[0]);
      RunTracks(cfg, c1, calls[1..], p);
      var (c2, o2) := Run(cfg, c1, calls[1..]);
      AboutAppend(o1, o2, p);
      ChainAppend(MarkOf(c, p), About(o1, p), MarkOf(c1, p), About(o2, p), MarkOf(c2, p));
    }
  }

  /** Along a chain, later advancing results have later keys. */
  lemma {:induction false} ChainAscends(mark: Option<Key>, outs: seq<Outcome>, end: Option<Key>, j: nat)
    requires Chain(mark, outs, end) && j < |outs| && Advances(outs[j])
    ensures mark.Some? ==> Before(mark.value, outs[j].obs.Key())
    ensures forall i :: 0 <= i < j && Advances(outs[i]) ==> Before(outs[i].obs.Key(), outs[j].obs.Key())
    decreases |outs|
  {
    if j > 0 {
      var m := if Advances(outs[0]) then Some(outs[0].obs.Key()) else mark;
      ChainAscends(m, outs[1..], end, j - 1);
      forall i | 0 <= i < j && Advances(outs[i])
        ensures Before(outs[i].obs.Key(), outs[j].obs.Key())
      {
        if i > 0 {
          assert outs[i] == outs[1..][i - 1];
        }
      }
    }
  }

  /** Any two observations of a peer that a run accepts are ordered by the monotonic gate: the later
      one supersedes the earlier one and not the other way round. */
  lemma AcceptedAreOrdered(cfg: Config, c: Core, calls: seq<Call>, p: string, i: nat, j: nat)
    requires WellFormedCore(cfg, c) && Tracked(c, p) && cfg.maxCache >= 1
    requires CachedThroughout(cfg, c, calls, p)
    requires i < j < |About(Run(cfg, c, calls).1, p)|
    requires About(Run(cfg, c, calls).1, p)[i].accepted && About(Run(cfg, c, calls).1, p)[j].accepted
    ensures
      var outs := About(Run(cfg, c, calls).1, p);
      && IsNewer(outs[i].obs, outs[j].obs) && !IsNewer(outs[j].obs, outs[i].obs)
      && (outs[i].obs.epoch < outs[j].obs.epoch
          || (outs[i].obs.epoch == outs[j].obs.epoch && outs[i].obs.sequence < outs[j].obs.sequence))
  {
    RunTracks(cfg, c, calls, p);
    var (c1, outs) := Run(cfg, c, calls);
    ChainAscends(MarkOf(c, p), About(outs, p), MarkOf(c1, p), j);
  }

  // ---- when nothing is evicted ----

  function PeersOf(calls: seq<Call>): set<string> {
    set call | call in calls :: call.obs.peerId
  }

  /** A call evicts nobody while the peers on record and its own still fit in the cache. */
  lemma StepEvictsNobody(cfg: Config, c: Core, call: Call, peers: set<string>)
    requires WellFormedCore(cfg, c) && |peers| <= cfg.maxCache
    requires c.last.val.Keys <= peers && call.obs.peerId in peers
    ensures
      var c1 := Step(cfg, c, call).0;
      c.last.val.Keys <= c1.last.val.Keys <= peers
  {
    hide WellFormedCore;
    EvaluateRoom(cfg, c, call.obs, call.oldStatus, call.now, peers);
  }

  ghost predicate Roomy(cfg: Config, c: Core, peers: set<string>) {
    CachesOk(cfg, c) && c.last.val.Keys <= peers && |peers| <= cfg.maxCache
  }

  lemma TouchRoom(cfg: Config, c: Core, p: string, k: Key, peers: set<string>)
    requires Roomy(cfg, c, peers) && p in peers
    ensures
      var last := Touch(c.last, p, k, cfg.maxCache);
      WellFormed(last, cfg.maxCache) && c.last.val.Keys <= last.val.Keys <= peers
  {
    TouchEffect(c.last, p, k, cfg.maxCache);
    if p !in c.last.val {
      NoDupSize(c.last.order, c.last.val.Keys);
      SubsetSize(c.last.val.Keys + {p}, peers);
    }
  }

  lemma SubsetSize(a: set<string>, b: set<string>)
    requires a <= b
    ensures |a| <= |b|
  {
    assert b == a + (b - a);
  }

  lemma ApplyRoom(cfg: Config, c: Core, obs: Observation, oldStatus: string, peers: set<string>)
    requires Roomy(cfg, c, peers) && obs.peerId in peers
    ensures
      var c1 := Apply(cfg, c, obs, oldStatus).0;
      Roomy(cfg, c1, peers) && c.last.val.Keys <= c1.last.val.Keys
  {
    ApplyEffect(cfg, c, obs, oldStatus);
    ApplyForm(cfg, c, obs, oldStatus);
    TouchRoom(cfg, c, obs.peerId, obs.Key(), peers);
    hide Apply;
    hide Touch;
  }

  lemma ApplyHeldRoom(cfg: Config, c: Core, held: Held, peers: set<string>)
    requires Roomy(cfg, c, peers) && held.obs.peerId in peers
    ensures
      var c1 := ApplyHeld(cfg, c, held).0;
      Roomy(cfg, c1, peers) && c.last.val.Keys <= c1.last.val.Keys
  {
    ApplyRoom(cfg, c, held.obs, held.oldStatus, peers);
    ApplyHeldForm(cfg, c, held);
    hide Apply;
    var c1 := Apply(cfg, c, held.obs, held.oldStatus).0;
    TouchRoom(cfg, c1, held.obs.peerId, held.obs.Key(), peers);
    hide Touch;
  }

  lemma {:induction false} FlushLoopRoom(cfg: Config, c: Core, pending: Pending, p: string, now: real, peers: set<string>)
    requires Roomy(cfg, c, peers) && PendingOk(pending, p) && p in peers
    ensures
      var c1 := FlushLoop(cfg, c, pending, p, now).0;
      Roomy(cfg, c1, peers) && c.last.val.Keys <= c1.last.val.Keys
    decreases pending.Keys
  {
    if p in c.last.val && NextOf(c.last.val[p]) in pending {
      var held := pending[NextOf(c.last.val[p])];
      var rest := pending - {NextOf(c.last.val[p])};
      assert NextOf(c.last.val[p]) in pending.Keys && NextOf(c.last.val[p]) !in rest.Keys;
      hide ApplyHeld;
      if held.obs.IsStale(now) {
      } else if DedupOf(held.obs) in c.seen.val {
        TouchRoom(cfg, c, p, held.obs.Key(), peers);
        hide Touch;
        FlushLoopRoom(cfg, c.(last := Touch(c.last, p, held.obs.Key(), cfg.maxCache)), rest, p, now, peers);
      } else {
        ApplyHeldRoom(cfg, c, held, peers);
        FlushLoopRoom(cfg, ApplyHeld(cfg, c, held).0, rest, p, now, peers);
      }
    }
  }

  lemma FlushRoom(cfg: Config, c: Core, p: string, now: real, peers: set<string>)
    requires WellFormedCore(cfg, c) && c.last.val.Keys <= peers && |peers| <= cfg.maxCache && p in peers
    ensures c.last.val.Keys <= Flush(cfg, c, p, now).0.last.val.Keys <= peers
  {
    hide FlushLoop;
    hide StorePending;
    hide WellFormed;
    if p in c.buffer.val {
      FlushLoopRoom(cfg, c, c.buffer.val[p], p, now, peers);
    }
  }

  lemma EvaluateRoom(cfg: Config, c: Core, obs: Observation, oldStatus: string, now: real, peers: set<string>)
    requires WellFormedCore(cfg, c) && c.last.val.Keys <= peers && |peers| <= cfg.maxCache && obs.peerId in peers
    ensures
      var c1 := Evaluate(cfg, c, obs, oldStatus, now).0;
      c.last.val.Keys <= c1.last.val.Keys <= peers
  {
    hide Apply;
    hide Flush;
    hide Touch;
    hide WellFormed;
    hide OthersKept;
    hide PendingOk;
    ApplyRoom(cfg, c, obs, oldStatus, peers);
    ApplyForm(cfg, c, obs, oldStatus);
    FlushRoom(cfg, Apply(cfg, c, obs, oldStatus).0, obs.peerId, now, peers);
  }

  /** When the peers of a run, together with those already on record, fit in the cache, every
      watermark stays cached throughout; so the results above hold of every peer. */
  lemma {:induction false} FewPeersStayCached(cfg: Config, c: Core, calls: seq<Call>, p: string, peers: set<string>)
    requires WellFormedCore(cfg, c) && c.last.val.Keys + PeersOf(calls) <= peers && |peers| <= cfg.maxCache
    ensures CachedThroughout(cfg, c, calls, p)
    decreases |calls|
  {
    if calls != [] {
      hide WellFormedCore;
      hide Evaluate;
      var call := calls[0];
      assert call in calls && call.obs.peerId in PeersOf(calls);
      StepEvictsNobody(cfg, c, call, peers);
      EvaluateForm(cfg, c, call.obs, call.oldStatus, call.now);
      assert PeersOf(calls[1..]) <= PeersOf(calls);
      FewPeersStayCached(cfg, Step(cfg, c, call).0, calls[1..], p, peers);
    }
  }

  /** The empty pipeline satisfies the invariant for every peer. */
  lemma FreshIsTracked(cfg: Config, p: string)
    ensures WellFormedCore(cfg, Fresh()) && Tracked(Fresh(), p)
  {
  }

  /** From a fresh manager, over any run about no more peers than its caches hold: any two accepted
      observations of a peer are strictly ordered by the monotonic gate, in the order of the results. */
  lemma FreshRunsAreOrdered(cfg: Config, calls: seq<Call>, p: string, i: nat, j: nat)
    requires cfg.maxCache >= 1 && |PeersOf(calls)| <= cfg.maxCache
    requires i < j < |About(Run(cfg, Fresh(), calls).1, p)|
    requires About(Run(cfg, Fresh(), calls).1, p)[i].accepted && About(Run(cfg, Fresh(), calls).1, p)[j].accepted
    ensures
      var outs := About(Run(cfg, Fresh(), calls).1, p);
      && IsNewer(outs[i].obs, outs[j].obs) && !IsNewer(outs[j].obs, outs[i].obs)
      && (outs[i].obs.epoch < outs[j].obs.epoch
          || (outs[i].obs.epoch == outs[j].obs.epoch && outs[i].obs.sequence < outs[j].obs.sequence))
  {
    hide Run;
    FreshIsTracked(cfg, p);
    assert Fresh().last.val.Keys + PeersOf(calls) <= PeersOf(calls);
    FewPeersStayCached(cfg, Fresh(), calls, p, PeersOf(calls));
    AcceptedAreOrdered(cfg, Fresh(), calls, p, i, j);
  }

  // ---- held-back entries of a superseded epoch ----

  /** Entry k of peer p is held back in c1 as it was in c. */
  ghost predicate StillHeld(c: Core, c1: Core, p: string, k: Key) {
    k in PendingOf(c, p) && k in PendingOf(c1, p) && PendingOf(c1, p)[k] == PendingOf(c, p)[k]
  }

  /** A held-back entry of an epoch older than the watermark can never be applied: no call about its
      peer removes or reports it, so it occupies a buffer slot until the whole buffer is evicted. */
  lemma SupersededEntriesStay(cfg: Config, c: Core, obs: Observation, oldStatus: string, now: real, k: Key)
    requires WellFormedCore(cfg, c) && Tracked(c, obs.peerId) && obs.peerId in c.last.val
    requires k in PendingOf(c, obs.peerId) && k.0 < c.last.val[obs.peerId].0
    ensures
      var (c1, outs) := Evaluate(cfg, c, obs, oldStatus, now);
      StillHeld(c, c1, obs.peerId, k) && forall i :: 1 <= i < |outs| ==> outs[i].obs.Key() != k
  {
    FlushedAreCurrent(cfg, c, obs, oldStatus, now, k);
    EntryStays(cfg, c, obs, oldStatus, now, k);
    hide Evaluate;
    hide StillHeld;
  }

  ghost predicate Refused(o: Outcome) {
    (o.decision == Duplicate || o.decision == Stale) && !Advances(o)
  }

  /** No result about p with this key is anything but a refusal. */
  ghost predicate NeverApplied(outs: seq<Outcome>, p: string, k: Key) {
    forall i :: 0 <= i < |outs| && outs[i].obs.peerId == p && outs[i].obs.Key() == k ==> Refused(outs[i])
  }

  lemma DirectIsRefused(cfg: Config, c: Core, obs: Observation, oldStatus: string, now: real)
    requires obs.peerId in c.last.val && obs.epoch < c.last.val[obs.peerId].0
    ensures
      var (c1, outs) := Evaluate(cfg, c, obs, oldStatus, now);
      c1 == c && |outs| == 1 && Refused(outs[0])
  {
    hide Apply;
    hide Flush;
    hide BufferObservation;
  }

  lemma CallNeverApplies(cfg: Config, c: Core, call: Call, p: string, k: Key)
    requires WellFormedCore(cfg, c) && Tracked(c, p) && p in c.last.val && k.0 < c.last.val[p].0
    ensures NeverApplied(Step(cfg, c, call).1, p, k)
  {
    hide WellFormedCore;
    hide Tracked;
    hide OthersKept;
    hide Evaluate;
    hide Refused;
    var outs := Step(cfg, c, call).1;
    EvaluateForm(cfg, c, call.obs, call.oldStatus, call.now);
    if call.obs.peerId == p {
      EvaluateInvariant(cfg, c, call.obs, call.oldStatus, call.now);
      FlushedAreCurrent(cfg, c, call.obs, call.oldStatus, call.now, k);
      DirectCarriesCall(cfg, c, call);
      if call.obs.Key() == k {
        DirectIsRefused(cfg, c, call.obs, call.oldStatus, call.now);
      }
    }
  }

  /** The direct result is about the call's own observation. */
  lemma DirectCarriesCall(cfg: Config, c: Core, call: Call)
    ensures |Step(cfg, c, call).1| >= 1 && Step(cfg, c, call).1[0].obs == call.obs
  {
    hide Flush;
    hide Touch;
  }

  /** After every call of the run the peer still has a reorder buffer. */
  ghost predicate BufferedThroughout(cfg: Config, c: Core, calls: seq<Call>, p: string)
    decreases |calls|
  {
    calls == [] ||
    (var c1 := Step(cfg, c, calls[0]).0;
     p in c1.buffer.val && BufferedThroughout(cfg, c1, calls[1..], p))
  }

  lemma NeverAppliedJoins(a: seq<Outcome>, b: seq<Outcome>, p: string, k: Key)
    requires NeverApplied(a, p, k) && NeverApplied(b, p, k)
    ensures NeverApplied(a + b, p, k)
  {
    hide Refused;
  }

  lemma CallKeepsEntry(cfg: Config, c: Core, call: Call, p: string, k: Key)
    requires WellFormedCore(cfg, c) && Tracked(c, p) && p in c.last.val && k.0 < c.last.val[p].0
    requires k in PendingOf(c, p) && p in Step(cfg, c, call).0.buffer.val
    ensures StillHeld(c, Step(cfg, c, call).0, p, k)
  {
    hide WellFormedCore;
    hide Tracked;
    hide Evaluate;
    if call.obs.peerId == p {
      SupersededEntriesStay(cfg, c, call.obs, call.oldStatus, call.now, k);
    } else {
      EvaluateForm(cfg, c, call.obs, call.oldStatus, call.now);
    }
  }

  /** Over any run in which the peer stays cached, a key of a superseded epoch is never applied: every
      result about it is a refusal. */
  lemma {:induction false} SupersededNeverApplied(cfg: Config, c: Core, calls: seq<Call>, p: string, k: Key)
    requires WellFormedCore(cfg, c) && Tracked(c, p) && p in c.last.val && k.0 < c.last.val[p].0
    requires CachedThroughout(cfg, c, calls, p)
    ensures NeverApplied(Run(cfg, c, calls).1, p, k)
    decreases |calls|
  {
    hide WellFormedCore;
    hide Tracked;
    hide Step;
    hide NeverApplied;
    if calls == [] {
      NothingApplied(p, k);
    } else {
      StepTracks(cfg, c, calls[0], p);
      CallNeverApplies(cfg, c, calls[0], p, k);
      var (c1, outs) := Step(cfg, c, calls[0]);
      SupersededNeverApplied(cfg, c1, calls[1..], p, k);
      NeverAppliedJoins(outs, Run(cfg, c1, calls[1..]).1, p, k);
    }
  }

  lemma NothingApplied(p: string, k: Key)
    ensures NeverApplied([], p, k)
  {
  }

  /** And over any run in which its buffer is not evicted either, a held entry of a superseded epoch is
      still held at the end, unchanged. */
  lemma {:induction false} SupersededStaysHeld(cfg: Config, c: Core, calls: seq<Call>, p: string, k: Key)
    requires WellFormedCore(cfg, c) && Tracked(c, p) && p in c.last.val && k.0 < c.last.val[p].0 && k in PendingOf(c, p)
    requires CachedThroughout(cfg, c, calls, p) && BufferedThroughout(cfg, c, calls, p)
    ensures StillHeld(c, Run(cfg, c, calls).0, p, k)
    decreases |calls|
  {
    hide WellFormedCore;
    hide Tracked;
    hide Step;
    if calls != [] {
      StepTracks(cfg, c, calls[0], p);
      CallKeepsEntry(cfg, c, calls[0], p, k);
      SupersededStaysHeld(cfg, Step(cfg, c, calls[0]).0, calls[1..], p, k);
    }
  }

  lemma FollowsMark(c: Core, p: string, key: Key)
    requires p in c.last.val && !AtOrBefore(key, c.last.val[p])
    requires !(key.0 == c.last.val[p].0 && key.1 > c.last.val[p].1 + 1)
    ensures Follows(MarkOf(c, p), key)
  {
  }

  lemma EntryStays(cfg: Config, c: Core, obs: Observation, oldStatus: string, now: real, k: Key)
    requires WellFormedCore(cfg, c) && Tracked(c, obs.peerId) && obs.peerId in c.last.val
    requires k in PendingOf(c, obs.peerId) && k.0 < c.last.val[obs.peerId].0
    ensures StillHeld(c, Evaluate(cfg, c, obs, oldStatus, now).0, obs.peerId, k)
  {
    var p := obs.peerId;
    assert StillHeld(c, c, p, k);
    hide WellFormedCore;
    hide Tracked;
    hide Apply;
    hide Flush;
    hide BufferObservation;
    hide StillHeld;
    hide MarkOf;
    hide PendingOf;
    if DedupOf(obs) in c.seen.val || AtOrBefore(obs.Key(), c.last.val[p]) {
    } else if obs.epoch == c.last.val[p].0 && obs.sequence > c.last.val[p].1 + 1 {
      SupersededThroughBuffering(cfg, c, obs, oldStatus, now, k);
    } else {
      FollowsMark(c, p, obs.Key());
      SupersededThroughFlush(cfg, c, obs, oldStatus, now, k);
    }
  }

  lemma FlushedAreCurrent(cfg: Config, c: Core, obs: Observation, oldStatus: string, now: real, k: Key)
    requires WellFormedCore(cfg, c) && Tracked(c, obs.peerId) && obs.peerId in c.last.val
    requires k.0 < c.last.val[obs.peerId].0
    ensures forall i :: 1 <= i < |Evaluate(cfg, c, obs, oldStatus, now).1| ==>
              Evaluate(cfg, c, obs, oldStatus, now).1[i].obs.Key() != k
  {
    EvaluateInvariant(cfg, c, obs, oldStatus, now);
    hide Evaluate;
    hide Tracked;
    hide WellFormedCore;
    hide OthersKept;
    hide Chain;
    var (r, outs) := Evaluate(cfg, c, obs, oldStatus, now);
    forall i | 1 <= i < |outs|
      ensures outs[i].obs.Key() != k
    {
      assert outs[i] == outs[1..][i - 1];
    }
  }

  lemma SupersededThroughBuffering(cfg: Config, c: Core, obs: Observation, oldStatus: string, now: real, k: Key)
    requires WellFormedCore(cfg, c) && k in PendingOf(c, obs.peerId) && k.0 < obs.epoch
    ensures
      StillHeld(c, BufferObservation(cfg, c, obs, oldStatus, now).0, obs.peerId, k)
  {
    var p := obs.peerId;
    CacheNonEmpty(c.buffer, p, cfg.maxCache);
    TouchEffect(c.buffer, p, PendingOf(c, p)[obs.Key() := Held(obs, oldStatus)], cfg.maxCache);
    hide Touch;
    hide WellFormed;
  }

  lemma SupersededThroughFlush(cfg: Config, c: Core, obs: Observation, oldStatus: string, now: real, k: Key)
    requires WellFormedCore(cfg, c) && Tracked(c, obs.peerId) && obs.peerId in c.last.val
    requires Follows(MarkOf(c, obs.peerId), obs.Key())
    requires k in PendingOf(c, obs.peerId) && k.0 < c.last.val[obs.peerId].0
    ensures
      var c1 := Apply(cfg, c, obs, oldStatus).0;
      StillHeld(c, Flush(cfg, c1, obs.peerId, now).0, obs.peerId, k)
  {
    hide Apply;
    hide FlushLoop;
    hide StorePending;
    hide WellFormed;
    hide OthersKept;
    hide Touch;
    var p := obs.peerId;
    ApplyKeepsReady(cfg, c, obs, oldStatus);
    ApplyEffect(cfg, c, obs, oldStatus);
    var c1 := Apply(cfg, c, obs, oldStatus).0;
    var pending := c1.buffer.val[p];
    FlushLoopKeepsSuperseded(cfg, c1, pending, p, now, k);
    FlushLoopTracks(cfg, c1, pending, p, now);
    var (c2, left, outs) := FlushLoop(cfg, c1, pending, p, now);
    StorePendingEffect(cfg, c.buffer, p, left);
  }
}

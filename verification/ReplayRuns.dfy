/** Which submissions are replays, over whole runs (orchestrator/state_transition_manager.py:135-151,
    168-181). */
module ReplayRuns {
  import opened Prelude
  import opened LruCache
  import opened Observations
  import opened StateTransition
  import opened WatermarkInvariant
  import opened WatermarkRuns

  /** The identities of the observations that moved the watermark, in order. */
  function Processed(outs: seq<Outcome>): seq<DedupKey> {
    if outs == [] then []
    else
      var n := |outs| - 1;
      Processed(outs[..n])
      + if outs[n].accepted || outs[n].advanced
        then [(outs[n].obs.peerId, outs[n].obs.epoch, outs[n].obs.sequence, outs[n].obs.observerId)] else []
  }

  lemma ProcessedOne(outs: seq<Outcome>, o: Outcome)
    ensures Processed(outs + [o]) == Processed(outs)
      + if o.accepted || o.advanced then [(o.obs.peerId, o.obs.epoch, o.obs.sequence, o.obs.observerId)] else []
  {
    assert (outs + [o])[..|outs|] == outs;
  }

  /** The replay cache, given its order, after touching more keys. */
  function OrderFrom<K(==,!new)>(order: seq<K>, touched: seq<K>, cap: int): seq<K> {
    if touched == [] then order
    else
      var n := |touched| - 1;
      var next := Without(OrderFrom(order, touched[..n], cap), touched[n]) + [touched[n]];
      if |next| > cap && |next| > 0 then next[1..] else next
  }

  lemma {:induction false} OrderFromNothing<K(!new)>(touched: seq<K>, cap: int)
    ensures OrderFrom([], touched, cap) == OrderAfter(touched, cap)
  {
    if touched != [] {
      OrderFromNothing(touched[..|touched| - 1], cap);
    }
  }

  lemma {:induction false} OrderFromJoin<K(!new)>(order: seq<K>, a: seq<K>, b: seq<K>, cap: int)
    ensures OrderFrom(order, a + b, cap) == OrderFrom(OrderFrom(order, a, cap), b, cap)
  {
    if b == [] {
      assert a + b == a;
    } else {
      var n := |b| - 1;
      assert (a + b)[..|a + b| - 1] == a + b[..n];
      OrderFromJoin(order, a, b[..n], cap);
    }
  }

  lemma {:induction false} ProcessedJoin(a: seq<Outcome>, b: seq<Outcome>)
    ensures Processed(a + b) == Processed(a) + Processed(b)
  {
    if b == [] {
      assert a + b == a;
    } else {
      var n := |b| - 1;
      assert (a + b)[..|a + b| - 1] == a + b[..n];
      ProcessedJoin(a, b[..n]);
    }
  }

  ghost predicate Remembered(cfg: Config, c: Core, c1: Core, outs: seq<Outcome>) {
    c1.seen.order == OrderFrom(c.seen.order, Processed(outs), cfg.maxCache)
  }

  lemma RememberedJoin(cfg: Config, c: Core, c1: Core, c2: Core, a: seq<Outcome>, b: seq<Outcome>)
    requires Remembered(cfg, c, c1, a) && Remembered(cfg, c1, c2, b)
    ensures Remembered(cfg, c, c2, a + b)
  {
    ProcessedJoin(a, b);
    OrderFromJoin(c.seen.order, Processed(a), Processed(b), cfg.maxCache);
  }

  lemma RememberedNone(cfg: Config, c: Core, c1: Core, o: Outcome)
    requires c1.seen == c.seen && !o.accepted && !o.advanced
    ensures Remembered(cfg, c, c1, [o]) && Remembered(cfg, c, c1, [])
  {
    assert [] + [o] == [o];
    ProcessedOne([], o);
  }

  lemma RememberedMark(cfg: Config, c: Core, c1: Core, o: Outcome)
    requires c1.seen == Mark(cfg, c, o.obs).seen && (o.accepted || o.advanced)
    ensures Remembered(cfg, c, c1, [o])
  {
    hide Touch;
    hide OrderFrom;
    hide Processed;
    hide Without;
    ProcessedAlone(o);
    var k := DedupOf(o.obs);
    TouchOrder(c.seen, k, (), cfg.maxCache);
    OrderFromOne(c.seen.order, k, cfg.maxCache);
  }

  lemma ProcessedAlone(o: Outcome)
    requires o.accepted || o.advanced
    ensures Processed([o]) == [DedupOf(o.obs)]
  {
    assert [] + [o] == [o];
    ProcessedOne([], o);
  }

  lemma OrderFromOne<K(!new)>(order: seq<K>, k: K, cap: int)
    ensures
      var next := Without(order, k) + [k];
      OrderFrom(order, [k], cap) == if |next| > cap && |next| > 0 then next[1..] else next
  {
    hide Without;
    assert [k][..0] == [];
    assert OrderFrom(order, [k][..0], cap) == order;
  }

  lemma ApplyRemembered(cfg: Config, c: Core, obs: Observation, oldStatus: string)
    ensures Remembered(cfg, c, Apply(cfg, c, obs, oldStatus).0, [Apply(cfg, c, obs, oldStatus).1])
  {
    hide Apply;
    hide Mark;
    hide Remembered;
    ApplyEffect(cfg, c, obs, oldStatus);
    var (c1, o) := Apply(cfg, c, obs, oldStatus);
    if o.accepted {
      RememberedMark(cfg, c, c1, o);
    } else {
      RememberedNone(cfg, c, c1, o);
    }
  }

  lemma RememberedNothing(cfg: Config, c: Core, c1: Core)
    requires c1.seen == c.seen
    ensures Remembered(cfg, c, c1, [])
  {
  }

  lemma ApplyHeldRemembered(cfg: Config, c: Core, held: Held)
    requires CachesOk(cfg, c) && held.obs.peerId in c.last.val && c.last.val[held.obs.peerId] != held.obs.Key()
    ensures Remembered(cfg, c, ApplyHeld(cfg, c, held).0, [ApplyHeld(cfg, c, held).1])
  {
    hide ApplyHeld;
    hide Mark;
    hide Remembered;
    ApplyHeldEffect(cfg, c, held);
    var (c1, o) := ApplyHeld(cfg, c, held);
    RememberedMark(cfg, c, c1, o);
  }

  lemma {:induction false} FlushLoopRemembered(cfg: Config, c: Core, pending: Pending, p: string, now: real)
    requires CachesOk(cfg, c) && PendingOk(pending, p)
    ensures Remembered(cfg, c, FlushLoop(cfg, c, pending, p, now).0, FlushLoop(cfg, c, pending, p, now).2)
    decreases pending.Keys
  {
    hide ApplyHeld;
    hide Remembered;
    hide Touch;
    hide WellFormed;
    RememberedNothing(cfg, c, c);
    if p in c.last.val && NextOf(c.last.val[p]) in pending {
      var next := NextOf(c.last.val[p]);
      var held, rest := pending[next], pending - {next};
      DropNext(pending, p, next);
      if held.obs.IsStale(now) {
        RememberedNone(cfg, c, c, Reject(held.obs, held.oldStatus, Stale));
      } else if DedupOf(held.obs) in c.seen.val {
        var c1 := c.(last := Touch(c.last, p, held.obs.Key(), cfg.maxCache));
        TouchLastForm(cfg, c, p, held.obs.Key(), c1);
        FlushLoopRemembered(cfg, c1, rest, p, now);
        var (c2, left, os) := FlushLoop(cfg, c1, rest, p, now);
        SameStart(cfg, c, c1, c2, os);
      } else {
        ApplyHeldForm(cfg, c, held);
        ApplyHeldRemembered(cfg, c, held);
        var (c1, o) := ApplyHeld(cfg, c, held);
        FlushLoopRemembered(cfg, c1, rest, p, now);
        var (c2, left, os) := FlushLoop(cfg, c1, rest, p, now);
        RememberedJoin(cfg, c, c1, c2, [o], os);
      }
    }
  }

  lemma SameStart(cfg: Config, c: Core, c1: Core, c2: Core, outs: seq<Outcome>)
    requires c.seen == c1.seen && Remembered(cfg, c1, c2, outs)
    ensures Remembered(cfg, c, c2, outs)
  {
  }

  lemma SameEnd(cfg: Config, c: Core, c1: Core, c2: Core, outs: seq<Outcome>)
    requires c1.seen == c2.seen && Remembered(cfg, c, c1, outs)
    ensures Remembered(cfg, c, c2, outs)
  {
  }

  lemma FlushRemembered(cfg: Config, c: Core, p: string, now: real)
    requires WellFormedCore(cfg, c)
    ensures Remembered(cfg, c, Flush(cfg, c, p, now).0, Flush(cfg, c, p, now).1)
  {
    hide FlushLoop;
    hide StorePending;
    hide WellFormed;
    hide Remembered;
    RememberedNothing(cfg, c, c);
    if p in c.buffer.val && c.buffer.val[p] != map[] {
      FlushLoopRemembered(cfg, c, c.buffer.val[p], p, now);
      var (c1, left, outs) := FlushLoop(cfg, c, c.buffer.val[p], p, now);
      SameEnd(cfg, c, c1, Flush(cfg, c, p, now).0, outs);
    }
  }

  lemma DirectRemembered(cfg: Config, c: Core, obs: Observation, oldStatus: string, now: real)
    requires WellFormedCore(cfg, c)
    ensures
      var (c1, o) := Apply(cfg, c, obs, oldStatus);
      var (c2, os) := Flush(cfg, c1, obs.peerId, now);
      Remembered(cfg, c, c2, [o] + os)
  {
    hide Apply;
    hide Flush;
    hide Remembered;
    hide WellFormed;
    ApplyForm(cfg, c, obs, oldStatus);
    ApplyRemembered(cfg, c, obs, oldStatus);
    var (c1, o) := Apply(cfg, c, obs, oldStatus);
    FlushRemembered(cfg, c1, obs.peerId, now);
    var (c2, os) := Flush(cfg, c1, obs.peerId, now);
    RememberedJoin(cfg, c, c1, c2, [o], os);
  }

  lemma BufferRemembered(cfg: Config, c: Core, obs: Observation, oldStatus: string, now: real)
    ensures
      var (c1, o) := BufferObservation(cfg, c, obs, oldStatus, now);
      Remembered(cfg, c, c1, [o])
  {
    hide Touch;
    hide Remembered;
    var (c1, o) := BufferObservation(cfg, c, obs, oldStatus, now);
    RememberedNone(cfg, c, c1, o);
  }

  lemma StepRemembered(cfg: Config, c: Core, call: Call)
    requires WellFormedCore(cfg, c)
    ensures Remembered(cfg, c, Step(cfg, c, call).0, Step(cfg, c, call).1)
  {
    hide Apply;
    hide Flush;
    hide BufferObservation;
    hide Remembered;
    hide WellFormedCore;
    RememberedNone(cfg, c, c, Reject(call.obs, call.oldStatus, Duplicate));
    RememberedNone(cfg, c, c, Reject(call.obs, call.oldStatus, Stale));
    BufferRemembered(cfg, c, call.obs, call.oldStatus, call.now);
    DirectRemembered(cfg, c, call.obs, call.oldStatus, call.now);
  }

  lemma {:induction false} RunRemembered(cfg: Config, c: Core, calls: seq<Call>)
    requires WellFormedCore(cfg, c)
    ensures WellFormedCore(cfg, Run(cfg, c, calls).0) && Remembered(cfg, c, Run(cfg, c, calls).0, Run(cfg, c, calls).1)
    decreases |calls|
  {
    hide Evaluate;
    hide Remembered;
    hide WellFormedCore;
    if calls == [] {
      RememberedNothing(cfg, c, c);
    } else {
      var call := calls[0];
      StepRemembered(cfg, c, call);
      EvaluateForm(cfg, c, call.obs, call.oldStatus, call.now);
      var (c1, o1) := Step(cfg, c, call);
      RunRemembered(cfg, c1, calls[1..]);
      var (c2, o2) := Run(cfg, c1, calls[1..]);
      RememberedJoin(cfg, c, c1, c2, o1, o2);
    }
  }

  /** The last so many distinct identities that moved a watermark. */
  function RecentlyProcessed(outs: seq<Outcome>, count: nat): seq<DedupKey> {
    LastN(count, LastUses(Processed(outs)))
  }

  lemma SeenIsRecent(cfg: Config, calls: seq<Call>, d: DedupKey)
    requires cfg.maxCache >= 0
    ensures
      var (c, outs) := Run(cfg, Fresh(), calls);
      d in c.seen.val <==> d in RecentlyProcessed(outs, cfg.maxCache)
  {
    hide Run;
    FreshIsTracked(cfg, d.0);
    RunRemembered(cfg, Fresh(), calls);
    var (c, outs) := Run(cfg, Fresh(), calls);
    OrderFromNothing(Processed(outs), cfg.maxCache);
    KeepsTheMostRecent(Processed(outs), cfg.maxCache);
  }

  /** Replays, over any run from a fresh manager: a submission whose peer, epoch, sequence and observer are
      among the last `maxCache` distinct ones that moved a watermark is a duplicate and changes nothing; any
      other one is a duplicate only when a different observation is held back under its key. */
  lemma ReplaysAreDuplicates(cfg: Config, calls: seq<Call>, obs: Observation, oldStatus: string, now: real)
    requires cfg.maxCache >= 0
    ensures
      var (c, outs) := Run(cfg, Fresh(), calls);
      var (c1, results) := Evaluate(cfg, c, obs, oldStatus, now);
      var recent := (obs.peerId, obs.epoch, obs.sequence, obs.observerId) in RecentlyProcessed(outs, cfg.maxCache);
      && (recent ==> c1 == c && |results| == 1 && results[0].decision == Duplicate && !results[0].accepted)
      && results != []
      && (!recent && results[0].decision == Duplicate ==>
            (obs.epoch, obs.sequence) in PendingOf(c, obs.peerId)
            && PendingOf(c, obs.peerId)[(obs.epoch, obs.sequence)].obs != obs)
  {
    hide Run;
    hide RecentlyProcessed;
    hide Apply;
    hide Flush;
    hide Touch;
    SeenIsRecent(cfg, calls, (obs.peerId, obs.epoch, obs.sequence, obs.observerId));
    ApplyEffect(cfg, Run(cfg, Fresh(), calls).0, obs, oldStatus);
  }
}

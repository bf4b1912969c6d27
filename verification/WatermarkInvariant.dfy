/** The buffer and watermark invariant of the decision pipeline
    (orchestrator/state_transition_manager.py:182-207, 291-359). */
module WatermarkInvariant {
  import opened Prelude
  import opened LruCache
  import opened Observations
  import opened StateTransition

  // ---- what the caches look like between calls ----

  ghost predicate PendingOk(pending: Pending, p: string) {
    forall k :: k in pending ==> pending[k].obs.Key() == k && pending[k].obs.peerId == p
  }

  ghost predicate WellFormedCore(cfg: Config, c: Core) {
    && WellFormed(c.seen, cfg.maxCache)
    && WellFormed(c.last, cfg.maxCache)
    && WellFormed(c.buffer, cfg.maxCache)
    && (forall p :: p in c.buffer.val ==> c.buffer.val[p] != map[] && PendingOk(c.buffer.val[p], p))
  }

  function MarkOf(c: Core, p: string): Option<Key> {
    if p in c.last.val then Some(c.last.val[p]) else None
  }

  function PendingOf(c: Core, p: string): Pending {
    if p in c.buffer.val then c.buffer.val[p] else map[]
  }

  /** No key of peer p in the replay cache lies above the watermark. */
  ghost predicate SeenBelow(c: Core, p: string, mark: Option<Key>) {
    forall d: DedupKey :: d in c.seen.val && d.0 == p ==> mark.Some? && AtOrBefore((d.1, d.2), mark.value)
  }

  /** Held-back keys belong to the current epoch, at least `gap` above the watermark, or to a
      superseded epoch. */
  ghost predicate HeldAbove(pending: Pending, mark: Option<Key>, gap: int) {
    forall k :: k in pending ==> mark.Some? && (k.0 < mark.value.0 || (k.0 == mark.value.0 && k.1 >= mark.value.1 + gap))
  }

  /** The invariant for one peer: it holds from the start and as long as the peer's watermark is
      not evicted. */
  ghost predicate Tracked(c: Core, p: string) {
    SeenBelow(c, p, MarkOf(c, p)) && HeldAbove(PendingOf(c, p), MarkOf(c, p), 2)
  }

  /** What a call about another peer leaves alone: it may only evict. */
  ghost predicate OthersKept(c: Core, c': Core, p: string) {
    && (forall q :: q != p && q in c'.last.val ==> q in c.last.val && c'.last.val[q] == c.last.val[q])
    && (forall q :: q != p && q in c'.buffer.val ==> q in c.buffer.val && c'.buffer.val[q] == c.buffer.val[q])
    && (forall d: DedupKey :: d.0 != p && d in c'.seen.val ==> d in c.seen.val)
  }

  lemma OthersKeptReflexive(c: Core, p: string)
    ensures OthersKept(c, c, p)
  {
  }

  lemma OthersKeptTransitive(a: Core, b: Core, c: Core, p: string)
    requires OthersKept(a, b, p) && OthersKept(b, c, p)
    ensures OthersKept(a, c, p)
  {
  }

  // ---- single steps ----

  /** The result an observation gets from the gates; only an accepted one moves the caches. */
  lemma ApplyEffect(cfg: Config, c: Core, obs: Observation, oldStatus: string)
    ensures
      var (c1, o) := Apply(cfg, c, obs, oldStatus);
      && c1.buffer == c.buffer
      && o.obs == obs && o.oldStatus == oldStatus && !o.advanced && o.request.Some? && o.decision != Buffered
      && o.decision != Stale && o.decision != Duplicate
      && (o.accepted ==> c1.seen == Mark(cfg, c, obs).seen && c1.last == Mark(cfg, c, obs).last)
      && (!o.accepted ==> c1.seen == c.seen && c1.last == c.last)
  {
  }

  /** c1 is c with the replay cache and the watermark advanced over obs; the gates' own records
      may differ. */
  ghost predicate Marked(cfg: Config, c: Core, obs: Observation, c1: Core) {
    && c1.seen == Mark(cfg, c, obs).seen
    && c1.last == Mark(cfg, c, obs).last
    && c1.buffer == c.buffer
  }

  lemma MarkEffect(cfg: Config, c: Core, obs: Observation, c1: Core)
    requires WellFormed(c.seen, cfg.maxCache) && WellFormed(c.last, cfg.maxCache)
    requires Marked(cfg, c, obs, c1)
    ensures WellFormed(c1.seen, cfg.maxCache) && WellFormed(c1.last, cfg.maxCache)
    ensures OthersKept(c, c1, obs.peerId)
    ensures forall d :: d in c1.seen.val ==> d in c.seen.val || d == DedupOf(obs)
    ensures cfg.maxCache >= 1 ==> MarkOf(c1, obs.peerId) == Some(obs.Key())
    ensures cfg.maxCache < 1 ==> c1.seen.val == map[] && c1.last.val == map[]
  {
    TouchEffect(c.seen, DedupOf(obs), (), cfg.maxCache);
    TouchEffect(c.last, obs.peerId, obs.Key(), cfg.maxCache);
  }

  /** Moving the watermark up over obs keeps every seen key at or below it. */
  lemma MarkKeepsSeenBelow(cfg: Config, c: Core, obs: Observation, c1: Core)
    requires WellFormed(c.seen, cfg.maxCache) && WellFormed(c.last, cfg.maxCache)
    requires Marked(cfg, c, obs, c1)
    requires SeenBelow(c, obs.peerId, MarkOf(c, obs.peerId))
    requires Follows(MarkOf(c, obs.peerId), obs.Key())
    ensures SeenBelow(c1, obs.peerId, MarkOf(c1, obs.peerId))
  {
    hide WellFormed;
    hide Marked;
    hide OthersKept;
    hide Mark;
    hide Touch;
    var p := obs.peerId;
    MarkEffect(cfg, c, obs, c1);
    forall d: DedupKey | d in c1.seen.val && d.0 == p
      ensures MarkOf(c1, p).Some? && AtOrBefore((d.1, d.2), MarkOf(c1, p).value)
    {
      if d in c.seen.val {
        assert AtOrBefore((d.1, d.2), MarkOf(c, p).value);
      }
    }
  }

  /** A held-back entry that comes to the front always takes the watermark with it. */
  lemma ApplyHeldEffect(cfg: Config, c: Core, held: Held)
    requires WellFormed(c.seen, cfg.maxCache) && WellFormed(c.last, cfg.maxCache)
    requires held.obs.peerId in c.last.val && c.last.val[held.obs.peerId] != held.obs.Key()
    ensures
      var (c1, o) := ApplyHeld(cfg, c, held);
      && Marked(cfg, c, held.obs, c1)
      && o.obs == held.obs && Advances(o) && o.request.Some? && o.decision != Buffered && o.decision != Stale
  {
    ApplyEffect(cfg, c, held.obs, held.oldStatus);
    TouchEffect(c.last, held.obs.peerId, held.obs.Key(), cfg.maxCache);
    hide Apply;
    hide Touch;
    hide WellFormed;
  }

  predicate Advances(o: Outcome) {
    o.accepted || o.advanced
  }

  // ---- the order in which the watermark moves ----

  /** The next watermark: anything at first, a later epoch, or exactly one more. */
  predicate Follows(mark: Option<Key>, key: Key) {
    mark.None? || key.0 > mark.value.0 || key == (mark.value.0, mark.value.1 + 1)
  }

  /** The advancing results take the watermark from `mark` to `end`, one legal step at a time. */
  ghost predicate Chain(mark: Option<Key>, outs: seq<Outcome>, end: Option<Key>)
    decreases |outs|
  {
    if outs == [] then mark == end
    else if Advances(outs[0]) then Follows(mark, outs[0].obs.Key()) && Chain(Some(outs[0].obs.Key()), outs[1..], end)
    else Chain(mark, outs[1..], end)
  }

  lemma {:induction false} ChainAppend(mark: Option<Key>, a: seq<Outcome>, mid: Option<Key>, b: seq<Outcome>, end: Option<Key>)
    requires Chain(mark, a, mid) && Chain(mid, b, end)
    ensures Chain(mark, a + b, end)
    decreases |a|
  {
    if a == [] {
      assert a + b == b;
    } else {
      assert (a + b)[1..] == a[1..] + b;
      ChainAppend(if Advances(a[0]) then Some(a[0].obs.Key()) else mark, a[1..], mid, b, end);
    }
  }

  // ---- the flush ----

  /** What the flush reports: results of peer p in the final epoch, each audited; an expired entry
      ends the flush without moving the watermark. */
  ghost predicate FlushShape(outs: seq<Outcome>, p: string, mark: Option<Key>) {
    forall i :: 0 <= i < |outs| ==>
      && outs[i].obs.peerId == p && outs[i].request.Some? && outs[i].decision != Buffered
      && mark.Some? && outs[i].obs.epoch == mark.value.0
      && (Advances(outs[i]) || (outs[i].decision == Stale && i == |outs| - 1))
  }

  /** What the flush loop relies on at each turn. */
  ghost predicate FlushReady(cfg: Config, c: Core, pending: Pending, p: string) {
    && WellFormed(c.seen, cfg.maxCache) && WellFormed(c.last, cfg.maxCache)
    && PendingOk(pending, p)
    && SeenBelow(c, p, MarkOf(c, p)) && HeldAbove(pending, MarkOf(c, p), 1)
  }

  /** The flush has an unexpired entry to apply. */
  predicate Applicable(c: Core, pending: Pending, p: string, now: real) {
    && p in c.last.val
    && NextOf(c.last.val[p]) in pending
    && !pending[NextOf(c.last.val[p])].obs.IsStale(now)
  }

  /** Taking the watermark one key up over a held-back entry keeps the loop ready. */
  lemma MarkKeepsReady(cfg: Config, c: Core, pending: Pending, p: string, obs: Observation, c1: Core)
    requires FlushReady(cfg, c, pending, p) && p in c.last.val
    requires obs.peerId == p && obs.Key() == NextOf(c.last.val[p])
    requires Marked(cfg, c, obs, c1)
    ensures FlushReady(cfg, c1, pending - {NextOf(c.last.val[p])}, p)
    ensures OthersKept(c, c1, p)
    ensures MarkOf(c1, p) == Some(NextOf(c.last.val[p]))
  {
    hide WellFormed;
    hide Marked;
    hide OthersKept;
    hide SeenBelow;
    hide HeldAbove;
    hide PendingOk;
    CacheNonEmpty(c.last, p, cfg.maxCache);
    MarkEffect(cfg, c, obs, c1);
    MarkKeepsSeenBelow(cfg, c, obs, c1);
    WithoutNext(pending, p, c.last.val[p]);
  }

  lemma WithoutNext(pending: Pending, p: string, mark: Key)
    requires PendingOk(pending, p) && HeldAbove(pending, Some(mark), 1)
    ensures PendingOk(pending - {(mark.0, mark.1 + 1)}, p)
    ensures HeldAbove(pending - {(mark.0, mark.1 + 1)}, Some((mark.0, mark.1 + 1)), 1)
  {
  }

  lemma CacheNonEmpty<V>(c: Lru<string, V>, p: string, cap: int)
    requires WellFormed(c, cap) && p in c.val
    ensures cap >= 1
  {
    assert p in c.order;
  }

  lemma NextNotSeen(cfg: Config, c: Core, pending: Pending, p: string)
    requires FlushReady(cfg, c, pending, p) && p in c.last.val && NextOf(c.last.val[p]) in pending
    ensures DedupOf(pending[NextOf(c.last.val[p])].obs) !in c.seen.val
    ensures pending[NextOf(c.last.val[p])].obs.peerId == p && pending[NextOf(c.last.val[p])].obs.Key() == NextOf(c.last.val[p])
  {
  }

  /** One turn of the flush: the entry was not seen before, the watermark moves by exactly one, and
      the loop goes on from a state that is ready again. */
  lemma FlushTurn(cfg: Config, c: Core, pending: Pending, p: string, now: real) returns (c1: Core, o: Outcome, rest: Pending)
    requires FlushReady(cfg, c, pending, p) && Applicable(c, pending, p, now)
    ensures (c1, o) == ApplyHeld(cfg, c, pending[NextOf(c.last.val[p])])
    ensures rest == pending - {NextOf(c.last.val[p])} && rest.Keys < pending.Keys
    ensures DedupOf(pending[NextOf(c.last.val[p])].obs) !in c.seen.val
    ensures FlushReady(cfg, c1, rest, p) && OthersKept(c, c1, p) && c1.buffer == c.buffer
    ensures MarkOf(c1, p) == Some(NextOf(c.last.val[p]))
    ensures o.obs == pending[NextOf(c.last.val[p])].obs && o.obs.peerId == p && o.obs.Key() == NextOf(c.last.val[p])
    ensures Advances(o) && o.request.Some? && o.decision != Buffered && o.decision != Stale
    ensures
      var (c2, left, os) := FlushLoop(cfg, c1, rest, p, now);
      FlushLoop(cfg, c, pending, p, now) == (c2, left, [o] + os)
  {
    var held := pending[NextOf(c.last.val[p])];
    NextNotSeen(cfg, c, pending, p);
    rest := pending - {NextOf(c.last.val[p])};
    assert NextOf(c.last.val[p]) in pending.Keys && NextOf(c.last.val[p]) !in rest.Keys;
    ApplyHeldEffect(cfg, c, held);
    hide Mark;
    hide ApplyHeld;
    hide PendingOk;
    hide SeenBelow;
    hide HeldAbove;
    hide WellFormed;
    hide OthersKept;
    var step := ApplyHeld(cfg, c, held);
    c1, o := step.0, step.1;
    MarkKeepsReady(cfg, c, pending, p, held.obs, c1);
  }

  lemma {:induction false} FlushLoopTracks(cfg: Config, c: Core, pending: Pending, p: string, now: real)
    requires FlushReady(cfg, c, pending, p)
    ensures
      var (c1, left, outs) := FlushLoop(cfg, c, pending, p, now);
      && FlushReady(cfg, c1, left, p) && HeldAbove(left, MarkOf(c1, p), 2)
      && OthersKept(c, c1, p) && c1.buffer == c.buffer
    decreases pending.Keys
  {
    hide ApplyHeld;
    if Applicable(c, pending, p, now) {
      var c1, o, rest := FlushTurn(cfg, c, pending, p, now);
      FlushLoopTracks(cfg, c1, rest, p, now);
    }
  }

  predicate SameEpochGrowth(a: Key, b: Key) {
    a.0 == b.0 && a.1 <= b.1
  }

  lemma {:induction false} FlushLoopOrder(cfg: Config, c: Core, pending: Pending, p: string, now: real)
    requires FlushReady(cfg, c, pending, p)
    ensures
      var (c1, left, outs) := FlushLoop(cfg, c, pending, p, now);
      && Chain(MarkOf(c, p), outs, MarkOf(c1, p))
      && (p in c.last.val ==> p in c1.last.val && SameEpochGrowth(c.last.val[p], c1.last.val[p]))
    decreases pending.Keys
  {
    hide ApplyHeld;
    if Applicable(c, pending, p, now) {
      var c1, o, rest := FlushTurn(cfg, c, pending, p, now);
      FlushLoopOrder(cfg, c1, rest, p, now);
      var (c2, left, os) := FlushLoop(cfg, c1, rest, p, now);
      assert ([o] + os)[1..] == os;
    } else if p in c.last.val && NextOf(c.last.val[p]) in pending {
      var held := pending[NextOf(c.last.val[p])];
      var o := Reject(held.obs, held.oldStatus, Stale);
      assert Chain(MarkOf(c, p), [o], MarkOf(c, p)) by {
        assert [o][1..] == [];
      }
    }
  }

  lemma {:induction false} FlushLoopShape(cfg: Config, c: Core, pending: Pending, p: string, now: real)
    requires FlushReady(cfg, c, pending, p)
    ensures
      var (c1, left, outs) := FlushLoop(cfg, c, pending, p, now);
      FlushShape(outs, p, MarkOf(c, p))
    decreases pending.Keys
  {
    hide ApplyHeld;
    if Applicable(c, pending, p, now) {
      var c1, o, rest := FlushTurn(cfg, c, pending, p, now);
      FlushLoopShape(cfg, c1, rest, p, now);
    }
  }

  /** Entries of a superseded epoch stay where they are. */
  lemma {:induction false} FlushLoopKeepsSuperseded(cfg: Config, c: Core, pending: Pending, p: string, now: real, k: Key)
    requires FlushReady(cfg, c, pending, p)
    requires k in pending && p in c.last.val && k.0 < c.last.val[p].0
    ensures
      var (c1, left, outs) := FlushLoop(cfg, c, pending, p, now);
      k in left && left[k] == pending[k]
    decreases pending.Keys
  {
    hide ApplyHeld;
    if Applicable(c, pending, p, now) {
      var c1, o, rest := FlushTurn(cfg, c, pending, p, now);
      FlushLoopKeepsSuperseded(cfg, c1, rest, p, now, k);
    }
  }

  /** The flush without its "already seen" branch. */
  function LeanFlushLoop(cfg: Config, c: Core, pending: Pending, p: string, now: real): (Core, Pending, seq<Outcome>)
    decreases pending.Keys
  {
    if p !in c.last.val then (c, pending, [])
    else
      var next := NextOf(c.last.val[p]);
      if next !in pending then (c, pending, [])
      else
        var held := pending[next];
        var rest := pending - {next};
        assert next in pending.Keys && next !in rest.Keys;
        if held.obs.IsStale(now) then (c, rest, [Reject(held.obs, held.oldStatus, Stale)])
        else
          var (c1, o) := ApplyHeld(cfg, c, held);
          var (c2, left, os) := LeanFlushLoop(cfg, c1, rest, p, now);
          (c2, left, [o] + os)
  }

  /** The "already seen" branch of the flush is unreachable: dropping it changes nothing. */
  lemma {:induction false} SeenBranchUnreachable(cfg: Config, c: Core, pending: Pending, p: string, now: real)
    requires FlushReady(cfg, c, pending, p)
    ensures FlushLoop(cfg, c, pending, p, now) == LeanFlushLoop(cfg, c, pending, p, now)
    decreases pending.Keys
  {
    hide ApplyHeld;
    if Applicable(c, pending, p, now) {
      var c1, o, rest := FlushTurn(cfg, c, pending, p, now);
      SeenBranchUnreachable(cfg, c1, rest, p, now);
    }
  }

  // ---- one call ----

  /** What a whole flush does to a tracked peer whose held-back entries start right above the
      watermark. */
  lemma FlushWell(cfg: Config, c: Core, p: string, now: real)
    requires WellFormedCore(cfg, c)
    requires SeenBelow(c, p, MarkOf(c, p)) && HeldAbove(PendingOf(c, p), MarkOf(c, p), 1)
    ensures WellFormedCore(cfg, Flush(cfg, c, p, now).0) && OthersKept(c, Flush(cfg, c, p, now).0, p)
  {
    hide FlushLoop;
    hide StorePending;
    hide WellFormed;
    hide SeenBelow;
    hide HeldAbove;
    if p in c.buffer.val && c.buffer.val[p] != map[] {
      var pending := c.buffer.val[p];
      FlushLoopTracks(cfg, c, pending, p, now);
      StorePendingEffect(cfg, c.buffer, p, FlushLoop(cfg, c, pending, p, now).1);
    }
  }

  lemma FlushTracks(cfg: Config, c: Core, p: string, now: real)
    requires WellFormedCore(cfg, c)
    requires SeenBelow(c, p, MarkOf(c, p)) && HeldAbove(PendingOf(c, p), MarkOf(c, p), 1)
    ensures Tracked(Flush(cfg, c, p, now).0, p)
  {
    hide FlushLoop;
    hide StorePending;
    hide WellFormed;
    hide OthersKept;
    if p in c.buffer.val && c.buffer.val[p] != map[] {
      var pending := c.buffer.val[p];
      FlushLoopTracks(cfg, c, pending, p, now);
      StorePendingEffect(cfg, c.buffer, p, FlushLoop(cfg, c, pending, p, now).1);
    }
  }

  lemma FlushInvariant(cfg: Config, c: Core, p: string, now: real)
    requires WellFormedCore(cfg, c)
    requires SeenBelow(c, p, MarkOf(c, p)) && HeldAbove(PendingOf(c, p), MarkOf(c, p), 1)
    ensures
      var (c1, outs) := Flush(cfg, c, p, now);
      && WellFormedCore(cfg, c1) && OthersKept(c, c1, p) && Tracked(c1, p)
  {
    hide Flush;
    hide WellFormedCore;
    hide OthersKept;
    hide Tracked;
    FlushWell(cfg, c, p, now);
    FlushTracks(cfg, c, p, now);
  }

  lemma FlushOrder(cfg: Config, c: Core, p: string, now: real)
    requires WellFormedCore(cfg, c)
    requires SeenBelow(c, p, MarkOf(c, p)) && HeldAbove(PendingOf(c, p), MarkOf(c, p), 1)
    ensures
      var (c1, outs) := Flush(cfg, c, p, now);
      && Chain(MarkOf(c, p), outs, MarkOf(c1, p))
      && FlushShape(outs, p, MarkOf(c1, p))
      && (p in c.last.val ==> p in c1.last.val && SameEpochGrowth(c.last.val[p], c1.last.val[p]))
  {
    hide FlushLoop;
    hide StorePending;
    if p in c.buffer.val && c.buffer.val[p] != map[] {
      var pending := c.buffer.val[p];
      FlushLoopOrder(cfg, c, pending, p, now);
      FlushLoopShape(cfg, c, pending, p, now);
    }
  }

  lemma StorePendingEffect(cfg: Config, buffer: Lru<string, Pending>, p: string, left: Pending)
    requires WellFormed(buffer, cfg.maxCache) && p in buffer.val
    ensures
      var b := StorePending(buffer, p, left);
      && WellFormed(b, cfg.maxCache)
      && (forall q :: q != p ==> ((q in b.val) <==> (q in buffer.val)))
      && (forall q :: q != p && q in b.val ==> b.val[q] == buffer.val[q])
      && (p in b.val <==> left != map[])
      && (p in b.val ==> b.val[p] == left)
  {
    if left == map[] {
      WithoutNoDup(buffer.order, p);
    }
  }

  /** What a call reports: the direct result first, then the flushed ones; everything but a
      held-back observation is audited. */
  ghost predicate ResultsShape(outs: seq<Outcome>, p: string, mark: Option<Key>) {
    && |outs| >= 1
    && outs[0].obs.peerId == p
    && (outs[0].request.Some? <==> outs[0].decision != Buffered)
    && FlushShape(outs[1..], p, mark)
  }

  /** What one call does to the peer it is about. */
  ghost predicate OwnPeerAfter(cfg: Config, c: Core, c1: Core, p: string, outs: seq<Outcome>) {
    && Tracked(c1, p)
    && (p in c.last.val ==> p in c1.last.val && AtOrBefore(c.last.val[p], c1.last.val[p]))
    && (cfg.maxCache >= 1 ==> Chain(MarkOf(c, p), outs, MarkOf(c1, p)))
    && ResultsShape(outs, p, MarkOf(c1, p))
  }

  /** After the gates, and before the flush. */
  lemma ApplyKeepsReady(cfg: Config, c: Core, obs: Observation, oldStatus: string)
    requires WellFormedCore(cfg, c) && Tracked(c, obs.peerId) && Follows(MarkOf(c, obs.peerId), obs.Key())
    ensures
      var (c1, o) := Apply(cfg, c, obs, oldStatus);
      && WellFormedCore(cfg, c1) && OthersKept(c, c1, obs.peerId)
      && SeenBelow(c1, obs.peerId, MarkOf(c1, obs.peerId))
      && HeldAbove(PendingOf(c1, obs.peerId), MarkOf(c1, obs.peerId), 1)
      && (obs.peerId in c.last.val ==>
            obs.peerId in c1.last.val && AtOrBefore(c.last.val[obs.peerId], c1.last.val[obs.peerId]))
      && (cfg.maxCache >= 1 ==> Chain(MarkOf(c, obs.peerId), [o], MarkOf(c1, obs.peerId)))
      && o.obs == obs && o.request.Some? && o.decision != Buffered
  {
    var p := obs.peerId;
    ApplyEffect(cfg, c, obs, oldStatus);
    hide Apply;
    var (c1, o) := Apply(cfg, c, obs, oldStatus);
    assert [o][1..] == [];
    if o.accepted {
      assert Marked(cfg, c, obs, c1);
      MarkEffect(cfg, c, obs, c1);
      MarkKeepsSeenBelow(cfg, c, obs, c1);
      if cfg.maxCache < 1 {
        assert c.buffer.order == [];
        assert p !in c.buffer.val;
      }
      hide WellFormed;
      hide Marked;
      hide OthersKept;
      hide SeenBelow;
    }
  }

  lemma DirectCaches(cfg: Config, c: Core, obs: Observation, oldStatus: string, now: real)
    requires WellFormedCore(cfg, c) && Tracked(c, obs.peerId)
    requires Follows(MarkOf(c, obs.peerId), obs.Key())
    ensures
      var (c1, o) := Apply(cfg, c, obs, oldStatus);
      var (c2, os) := Flush(cfg, c1, obs.peerId, now);
      && WellFormedCore(cfg, c2) && OthersKept(c, c2, obs.peerId) && Tracked(c2, obs.peerId)
  {
    hide Apply;
    hide Flush;
    hide WellFormedCore;
    hide Tracked;
    hide SeenBelow;
    hide HeldAbove;
    hide OthersKept;
    ApplyKeepsReady(cfg, c, obs, oldStatus);
    var (c1, o) := Apply(cfg, c, obs, oldStatus);
    FlushInvariant(cfg, c1, obs.peerId, now);
    OthersKeptTransitive(c, c1, Flush(cfg, c1, obs.peerId, now).0, obs.peerId);
  }

  lemma DirectOrder(cfg: Config, c: Core, obs: Observation, oldStatus: string, now: real)
    requires WellFormedCore(cfg, c) && Tracked(c, obs.peerId)
    requires Follows(MarkOf(c, obs.peerId), obs.Key())
    ensures
      var p := obs.peerId;
      var (c1, o) := Apply(cfg, c, obs, oldStatus);
      var (c2, os) := Flush(cfg, c1, p, now);
      && (p in c.last.val ==> p in c2.last.val && AtOrBefore(c.last.val[p], c2.last.val[p]))
      && (cfg.maxCache >= 1 ==> Chain(MarkOf(c, p), [o] + os, MarkOf(c2, p)))
  {
    hide Apply;
    hide Flush;
    hide WellFormedCore;
    hide Tracked;
    hide SeenBelow;
    hide HeldAbove;
    hide OthersKept;
    hide Chain;
    hide FlushShape;
    var p := obs.peerId;
    ApplyKeepsReady(cfg, c, obs, oldStatus);
    var (c1, o) := Apply(cfg, c, obs, oldStatus);
    FlushOrder(cfg, c1, p, now);
    var (c2, os) := Flush(cfg, c1, p, now);
    if cfg.maxCache >= 1 {
      ChainAppend(MarkOf(c, p), [o], MarkOf(c1, p), os, MarkOf(c2, p));
    }
  }

  lemma DirectShape(cfg: Config, c: Core, obs: Observation, oldStatus: string, now: real)
    requires WellFormedCore(cfg, c) && Tracked(c, obs.peerId)
    requires Follows(MarkOf(c, obs.peerId), obs.Key())
    ensures
      var p := obs.peerId;
      var (c1, o) := Apply(cfg, c, obs, oldStatus);
      var (c2, os) := Flush(cfg, c1, p, now);
      ResultsShape([o] + os, p, MarkOf(c2, p))
  {
    hide Apply;
    hide Flush;
    hide WellFormedCore;
    hide Tracked;
    hide SeenBelow;
    hide HeldAbove;
    hide OthersKept;
    hide Chain;
    var p := obs.peerId;
    ApplyKeepsReady(cfg, c, obs, oldStatus);
    var (c1, o) := Apply(cfg, c, obs, oldStatus);
    FlushOrder(cfg, c1, p, now);
    var (c2, os) := Flush(cfg, c1, p, now);
    assert ([o] + os)[1..] == os;
  }

  lemma DirectInvariant(cfg: Config, c: Core, obs: Observation, oldStatus: string, now: real)
    requires WellFormedCore(cfg, c) && Tracked(c, obs.peerId)
    requires Follows(MarkOf(c, obs.peerId), obs.Key())
    ensures
      var (c1, o) := Apply(cfg, c, obs, oldStatus);
      var (c2, os) := Flush(cfg, c1, obs.peerId, now);
      && WellFormedCore(cfg, c2) && OthersKept(c, c2, obs.peerId)
      && OwnPeerAfter(cfg, c, c2, obs.peerId, [o] + os)
  {
    hide Apply;
    hide Flush;
    hide WellFormedCore;
    hide Tracked;
    hide OthersKept;
    hide Chain;
    hide ResultsShape;
    DirectCaches(cfg, c, obs, oldStatus, now);
    DirectOrder(cfg, c, obs, oldStatus, now);
    DirectShape(cfg, c, obs, oldStatus, now);
  }

  /** Storing one more held-back entry of p. */
  lemma StoreEffect(cfg: Config, c: Core, p: string, added: Pending, c1: Core)
    requires WellFormedCore(cfg, c) && p in c.last.val && SeenBelow(c, p, MarkOf(c, p))
    requires PendingOk(added, p) && added != map[] && HeldAbove(added, MarkOf(c, p), 2)
    requires c1 == c.(buffer := Touch(c.buffer, p, added, cfg.maxCache))
    ensures WellFormedCore(cfg, c1) && OthersKept(c, c1, p) && Tracked(c1, p)
  {
    hide Touch;
    hide WellFormed;
    hide PendingOk;
    TouchEffect(c.buffer, p, added, cfg.maxCache);
    assert PendingOf(c1, p) == added || PendingOf(c1, p) == map[];
  }

  lemma BufferInvariant(cfg: Config, c: Core, obs: Observation, oldStatus: string, now: real)
    requires WellFormedCore(cfg, c) && Tracked(c, obs.peerId)
    requires obs.peerId in c.last.val && obs.epoch == c.last.val[obs.peerId].0
    requires obs.sequence > c.last.val[obs.peerId].1 + 1
    ensures
      var (c1, o) := BufferObservation(cfg, c, obs, oldStatus, now);
      && WellFormedCore(cfg, c1) && OthersKept(c, c1, obs.peerId) && Tracked(c1, obs.peerId)
      && c1.last == c.last
      && !Advances(o) && o.obs == obs && (o.request.Some? <==> o.decision != Buffered)
  {
    hide Touch;
    hide WellFormedCore;
    hide OthersKept;
    hide Tracked;
    OthersKeptReflexive(c, obs.peerId);
    AddedOk(cfg, c, obs, oldStatus);
    var p := obs.peerId;
    var added := PendingOf(c, p)[obs.Key() := Held(obs, oldStatus)];
    StoreEffect(cfg, c, p, added, c.(buffer := Touch(c.buffer, p, added, cfg.maxCache)));
    hide PendingOk;
    hide HeldAbove;
    hide SeenBelow;
  }

  lemma AddedOk(cfg: Config, c: Core, obs: Observation, oldStatus: string)
    requires WellFormedCore(cfg, c) && Tracked(c, obs.peerId)
    requires obs.peerId in c.last.val && obs.epoch == c.last.val[obs.peerId].0
    requires obs.sequence > c.last.val[obs.peerId].1 + 1
    ensures
      var added := PendingOf(c, obs.peerId)[obs.Key() := Held(obs, oldStatus)];
      && PendingOk(added, obs.peerId) && added != map[] && HeldAbove(added, MarkOf(c, obs.peerId), 2)
      && SeenBelow(c, obs.peerId, MarkOf(c, obs.peerId))
  {
    hide WellFormed;
    assert obs.Key() in PendingOf(c, obs.peerId)[obs.Key() := Held(obs, oldStatus)];
  }

  /** One call keeps the caches well formed, touches other peers only by eviction, and leaves the
      invariant, the watermark order and the shape of the results intact for its own peer. */
  lemma EvaluateInvariant(cfg: Config, c: Core, obs: Observation, oldStatus: string, now: real)
    requires WellFormedCore(cfg, c) && Tracked(c, obs.peerId)
    ensures
      var (c1, outs) := Evaluate(cfg, c, obs, oldStatus, now);
      && WellFormedCore(cfg, c1) && OthersKept(c, c1, obs.peerId)
      && OwnPeerAfter(cfg, c, c1, obs.peerId, outs)
  {
    var p := obs.peerId;
    assert OthersKept(c, c, p);
    hide WellFormedCore;
    hide Tracked;
    hide Apply;
    hide Flush;
    hide BufferObservation;
    hide OthersKept;
    if DedupOf(obs) in c.seen.val {
      Idle(MarkOf(c, p), Reject(obs, oldStatus, Duplicate));
    } else if p in c.last.val && AtOrBefore(obs.Key(), c.last.val[p]) {
      Idle(MarkOf(c, p), Reject(obs, oldStatus, Stale));
    } else if p in c.last.val && obs.epoch == c.last.val[p].0 && obs.sequence > c.last.val[p].1 + 1 {
      BufferInvariant(cfg, c, obs, oldStatus, now);
      Idle(MarkOf(c, p), BufferObservation(cfg, c, obs, oldStatus, now).1);
    } else if obs.IsStale(now) {
      Idle(MarkOf(c, p), Reject(obs, oldStatus, Stale));
    } else {
      hide OwnPeerAfter;
      DirectInvariant(cfg, c, obs, oldStatus, now);
    }
  }

  lemma Idle(mark: Option<Key>, o: Outcome)
    requires !Advances(o) && (o.request.Some? <==> o.decision != Buffered)
    ensures Chain(mark, [o], mark) && ResultsShape([o], o.obs.peerId, mark)
  {
    assert [o][1..] == [];
  }
}

/** Reordering is invisible: any bounded out-of-order delivery of a contiguous batch ends exactly as
    in-order delivery does (orchestrator/state_transition_manager.py:168-359). */
module Reordering {
  import opened Prelude
  import opened LruCache
  import opened Observations
  import opened StateTransition
  import opened WatermarkInvariant

  /** Observations of one peer and epoch with consecutive sequence numbers from `base`, to be
      delivered to a pipeline in state `start`. */
  datatype Batch = Batch(cfg: Config, start: Core, items: seq<Held>, p: string, epoch: int, base: int)
  {
    function Size(): nat {
      |items|
    }

    function KeyOf(i: nat): Key {
      (epoch, base + i)
    }

    /** The pipeline after the gates have seen the first n items in order. */
    function After(n: nat): Core
      requires n <= Size()
    {
      if n == 0 then start else Apply(cfg, After(n - 1), items[n - 1].obs, items[n - 1].oldStatus).0
    }

    /** The result of item i in order. */
    function ResultOf(i: nat): Outcome
      requires i < Size()
    {
      Apply(cfg, After(i), items[i].obs, items[i].oldStatus).1
    }

    /** The results of items a, ..., b - 1 in order. */
    function Results(a: nat, b: nat): seq<Outcome>
      requires a <= b <= Size()
      decreases b - a
    {
      if a == b then [] else [ResultOf(a)] + Results(a + 1, b)
    }

    ghost predicate Contiguous() {
      forall i :: 0 <= i < Size() ==> items[i].obs.peerId == p && items[i].obs.Key() == KeyOf(i)
    }

    /** Delivered in order, every item would be accepted. */
    ghost predicate AllPass() {
      forall i :: 0 <= i < Size() ==> ResultOf(i).accepted
    }

    ghost predicate UnexpiredAt(now: real) {
      forall i :: 0 <= i < Size() ==> !items[i].obs.IsStale(now)
    }

    ghost predicate Valid() {
      && Contiguous() && AllPass()
      && cfg.maxCache >= 1
      && WellFormed(start.seen, cfg.maxCache) && WellFormed(start.last, cfg.maxCache)
    }

    /** The first index from m on that has not been delivered. */
    function Frontier(delivered: set<nat>, m: nat): (f: nat)
      requires m <= Size()
      ensures m <= f <= Size()
      ensures forall i :: m <= i < f ==> i in delivered
      ensures f < Size() ==> f !in delivered
      decreases Size() - m
    {
      if m < Size() && m in delivered then Frontier(delivered, m + 1) else m
    }

    /** The delivered items beyond index m. */
    function Waiting(delivered: set<nat>, m: int): set<nat> {
      set i | i in delivered && m < i < Size()
    }

    /** Those items as the inner buffer holds them. */
    ghost predicate ParkedAs(parked: Pending, waiting: set<nat>) {
      forall k: Key :: (k in parked <==> k.0 == epoch && k.1 - base in waiting)
                    && (k in parked && 0 <= k.1 - base < Size() ==> parked[k] == items[k.1 - base])
    }
  }

  lemma {:induction false} ResultsJoin(b: Batch, l: nat, m: nat, n: nat)
    requires l <= m <= n <= b.Size()
    ensures b.Results(l, m) + b.Results(m, n) == b.Results(l, n)
    decreases m - l
  {
    hide Batch.ResultOf;
    if l < m {
      ResultsJoin(b, l + 1, m, n);
      var head := [b.ResultOf(l)];
      assert head + b.Results(l + 1, m) + b.Results(m, n) == head + (b.Results(l + 1, m) + b.Results(m, n));
    } else {
      assert [] + b.Results(m, n) == b.Results(m, n);
    }
  }

  // ---- the in-order states ----

  /** The gates neither read nor write the reorder buffer. */
  lemma ApplyIgnoresBuffer(cfg: Config, c: Core, buffer: Lru<string, Pending>, obs: Observation, oldStatus: string)
    ensures Apply(cfg, c.(buffer := buffer), obs, oldStatus)
         == (Apply(cfg, c, obs, oldStatus).0.(buffer := buffer), Apply(cfg, c, obs, oldStatus).1)
  {
  }

  lemma AfterNone(b: Batch)
    ensures b.After(0) == b.start
  {
  }

  lemma AfterStep(b: Batch, n: nat)
    requires 0 < n <= b.Size() && b.ResultOf(n - 1).accepted
    ensures Marked(b.cfg, b.After(n - 1), b.items[n - 1].obs, b.After(n))
  {
    ApplyEffect(b.cfg, b.After(n - 1), b.items[n - 1].obs, b.items[n - 1].oldStatus);
    hide Apply;
    hide Touch;
  }

  /** What the in-order states have in common. */
  ghost predicate InOrderState(b: Batch, n: nat)
    requires n <= b.Size()
  {
    && b.After(n).buffer == b.start.buffer
    && WellFormed(b.After(n).seen, b.cfg.maxCache) && WellFormed(b.After(n).last, b.cfg.maxCache)
    && (n > 0 ==> MarkOf(b.After(n), b.p) == Some(b.KeyOf(n - 1)))
  }

  lemma {:induction false} AfterForm(b: Batch, n: nat)
    requires b.Valid() && n <= b.Size()
    ensures InOrderState(b, n)
  {
    hide Batch.After;
    hide Batch.ResultOf;
    hide Apply;
    hide Mark;
    hide WellFormed;
    hide OthersKept;
    AfterNone(b);
    if n > 0 {
      AfterForm(b, n - 1);
      assert b.ResultOf(n - 1).accepted;
      AfterStep(b, n);
      MarkEffect(b.cfg, b.After(n - 1), b.items[n - 1].obs, b.After(n));
    }
  }

  // ---- the flush ----

  /** The flush of p is about to look for item m: items 0..m-1 are applied, the delivered ones from m
      on are parked. */
  ghost predicate Draining(b: Batch, buffer: Lru<string, Pending>, delivered: set<nat>, m: nat, parked: Pending) {
    && 0 < m <= b.Size()
    && b.ParkedAs(parked, b.Waiting(delivered, m - 1))
    && FlushReady(b.cfg, b.After(m).(buffer := buffer), parked, b.p)
  }

  lemma ParkedTop(b: Batch, delivered: set<nat>, m: nat, parked: Pending)
    requires 0 < m < b.Size() && m in delivered && b.ParkedAs(parked, b.Waiting(delivered, m - 1))
    ensures b.KeyOf(m) in parked && parked[b.KeyOf(m)] == b.items[m]
    ensures b.ParkedAs(parked - {b.KeyOf(m)}, b.Waiting(delivered, m))
  {
    var k := b.KeyOf(m);
    assert k.1 - b.base == m && m in b.Waiting(delivered, m - 1);
  }

  lemma ApplyHeldAccepted(b: Batch, buffer: Lru<string, Pending>, m: nat)
    requires b.Valid() && 0 < m < b.Size()
    ensures ApplyHeld(b.cfg, b.After(m).(buffer := buffer), b.items[m])
         == (b.After(m + 1).(buffer := buffer), b.ResultOf(m))
  {
    AfterForm(b, m);
    AfterForm(b, m + 1);
    var held := b.items[m];
    ApplyIgnoresBuffer(b.cfg, b.After(m), buffer, held.obs, held.oldStatus);
    hide Apply;
    assert Apply(b.cfg, b.After(m), held.obs, held.oldStatus) == (b.After(m + 1), b.ResultOf(m));
    hide Batch.After;
    hide Batch.ResultOf;
    hide WellFormed;
    hide Mark;
    assert MarkOf(b.After(m + 1), b.p) != MarkOf(b.After(m), b.p);
  }

  /** One turn of that flush applies item m with its in-order result. */
  lemma DrainOne(b: Batch, buffer: Lru<string, Pending>, delivered: set<nat>, m: nat, parked: Pending, now: real)
    returns (rest: Pending)
    requires b.Valid() && Draining(b, buffer, delivered, m, parked) && b.UnexpiredAt(now)
    requires m < b.Size() && m in delivered
    ensures Draining(b, buffer, delivered, m + 1, rest)
    ensures
      var (c2, left, os) := FlushLoop(b.cfg, b.After(m + 1).(buffer := buffer), rest, b.p, now);
      FlushLoop(b.cfg, b.After(m).(buffer := buffer), parked, b.p, now) == (c2, left, [b.ResultOf(m)] + os)
  {
    hide Batch.After;
    hide Apply;
    hide ApplyHeld;
    hide FlushLoop;
    hide WellFormed;
    hide Batch.ParkedAs;
    hide Batch.Waiting;
    hide SeenBelow;
    AfterForm(b, m);
    ParkedTop(b, delivered, m, parked);
    ApplyHeldAccepted(b, buffer, m);
    var c := b.After(m).(buffer := buffer);
    assert NextOf(c.last.val[b.p]) == b.KeyOf(m);
    assert !b.items[m].obs.IsStale(now);
    assert Applicable(c, parked, b.p, now);
    hide Batch.ResultOf;
    hide Batch.ParkedAs;
    hide Batch.Valid;
    hide FlushReady;
    var c1, o, r := FlushTurn(b.cfg, c, parked, b.p, now);
    rest := r;
  }

  /** The flush applies every parked item from m on up to the next gap, with the in-order results. */
  lemma {:induction false} FlushDrains(b: Batch, buffer: Lru<string, Pending>, delivered: set<nat>, m: nat, parked: Pending, now: real)
    returns (left: Pending)
    requires b.Valid() && Draining(b, buffer, delivered, m, parked) && b.UnexpiredAt(now)
    ensures b.ParkedAs(left, b.Waiting(delivered, b.Frontier(delivered, m)))
    ensures
      var f := b.Frontier(delivered, m);
      FlushLoop(b.cfg, b.After(m).(buffer := buffer), parked, b.p, now)
        == (b.After(f).(buffer := buffer), left, b.Results(m, f))
    decreases b.Size() - m
  {
    hide Batch.After;
    hide ApplyHeld;
    hide WellFormed;
    if m < b.Size() && m in delivered {
      var rest := DrainOne(b, buffer, delivered, m, parked, now);
      hide FlushLoop;
      hide Batch.ParkedAs;
      hide Batch.ResultOf;
      hide Batch.Valid;
      hide Draining;
      left := FlushDrains(b, buffer, delivered, m + 1, rest, now);
    } else {
      DrainStops(b, buffer, delivered, m, parked, now);
      hide FlushLoop;
      hide Batch.ParkedAs;
      hide Batch.Valid;
      hide Draining;
      left := parked;
    }
  }

  lemma DrainStops(b: Batch, buffer: Lru<string, Pending>, delivered: set<nat>, m: nat, parked: Pending, now: real)
    requires b.Valid() && Draining(b, buffer, delivered, m, parked) && !(m < b.Size() && m in delivered)
    ensures b.ParkedAs(parked, b.Waiting(delivered, m))
    ensures FlushLoop(b.cfg, b.After(m).(buffer := buffer), parked, b.p, now) == (b.After(m).(buffer := buffer), parked, [])
  {
    hide Batch.After;
    hide ApplyHeld;
    hide WellFormed;
    AfterForm(b, m);
    var c := b.After(m).(buffer := buffer);
    assert NextOf(c.last.val[b.p]) == b.KeyOf(m) && b.KeyOf(m).1 - b.base == m;
    assert m !in b.Waiting(delivered, m - 1);
    assert b.KeyOf(m) !in parked;
    assert b.Waiting(delivered, m - 1) == b.Waiting(delivered, m);
  }

  // ---- one delivery ----

  /** The outer buffer with p's parked entries, or without p when there are none. */
  function WithParked(buffer: Lru<string, Pending>, p: string, parked: Pending): Lru<string, Pending> {
    if parked == map[] then buffer else Lru(buffer.order + [p], buffer.val[p := parked])
  }

  /** The pipeline already stands right below the batch. */
  predicate Anchored(b: Batch) {
    MarkOf(b.start, b.p) == Some((b.epoch, b.base - 1))
  }

  /** The batch opens a new epoch, or is the first that the pipeline sees of the peer. */
  predicate Opens(b: Batch) {
    b.p !in b.start.last.val || b.start.last.val[b.p].0 < b.epoch
  }

  ghost predicate Ready(b: Batch) {
    && b.Valid()
    && WellFormedCore(b.cfg, b.start) && Tracked(b.start, b.p)
    && b.p !in b.start.buffer.val && |b.start.buffer.order| < b.cfg.maxCache
    && (Anchored(b) || Opens(b))
  }

  /** The pipeline c has processed items 0..m-1 and parks the delivered items beyond m. */
  ghost predicate Along(b: Batch, delivered: set<nat>, m: nat, parked: Pending, c: Core) {
    && m <= b.Size() && m !in delivered && (forall i :: 0 <= i < m ==> i in delivered)
    && b.ParkedAs(parked, b.Waiting(delivered, m))
    && c == b.After(m).(buffer := WithParked(b.start.buffer, b.p, parked))
    && WellFormedCore(b.cfg, c) && Tracked(c, b.p)
  }

  /** Where the watermark stands when item m is the next one due. */
  lemma MarkAlong(b: Batch, delivered: set<nat>, m: nat, parked: Pending, c: Core)
    requires Ready(b) && Along(b, delivered, m, parked, c)
    ensures m > 0 || Anchored(b) ==> MarkOf(c, b.p) == Some((b.epoch, b.base + m - 1))
    ensures m == 0 ==> MarkOf(c, b.p) == MarkOf(b.start, b.p)
  {
    hide Batch.After;
    hide WellFormedCore;
    hide Tracked;
    hide Batch.ParkedAs;
    AfterNone(b);
    AfterForm(b, m);
  }

  /** A call that runs ahead of the watermark parks its observation. */
  lemma EvaluateParks(cfg: Config, c: Core, held: Held, mark: Key, now: real)
    requires Tracked(c, held.obs.peerId) && MarkOf(c, held.obs.peerId) == Some(mark)
    requires held.obs.epoch == mark.0 && held.obs.sequence > mark.1 + 1 && !held.obs.IsStale(now)
    requires held.obs.Key() !in PendingOf(c, held.obs.peerId) && |PendingOf(c, held.obs.peerId)| < cfg.bufferMax
    ensures
      var p := held.obs.peerId;
      Evaluate(cfg, c, held.obs, held.oldStatus, now)
        == (c.(buffer := Touch(c.buffer, p, PendingOf(c, p)[held.obs.Key() := held], cfg.maxCache)),
            [Hold(held.obs, held.oldStatus)])
  {
    hide Apply;
    hide Flush;
    hide Touch;
    assert held == Held(held.obs, held.oldStatus);
  }

  /** A call with the next observation due goes through the gates and then flushes. */
  lemma EvaluateApplies(cfg: Config, c: Core, held: Held, now: real)
    requires Tracked(c, held.obs.peerId) && Follows(MarkOf(c, held.obs.peerId), held.obs.Key())
    requires !held.obs.IsStale(now)
    ensures
      var (c1, o) := Apply(cfg, c, held.obs, held.oldStatus);
      var (c2, os) := Flush(cfg, c1, held.obs.peerId, now);
      Evaluate(cfg, c, held.obs, held.oldStatus, now) == (c2, [o] + os)
  {
    hide Apply;
    hide Flush;
    hide BufferObservation;
  }

  /** An item beyond the next one due is parked. */
  lemma ParkOne(b: Batch, delivered: set<nat>, m: nat, parked: Pending, c: Core, i: nat, now: real) returns (parked': Pending)
    requires Ready(b) && Along(b, delivered, m, parked, c)
    requires m < i < b.Size() && i !in delivered && (m > 0 || Anchored(b))
    requires |parked| < b.cfg.bufferMax && b.UnexpiredAt(now)
    ensures b.ParkedAs(parked', b.Waiting(delivered + {i}, m))
    ensures Evaluate(b.cfg, c, b.items[i].obs, b.items[i].oldStatus, now)
         == (b.After(m).(buffer := WithParked(b.start.buffer, b.p, parked')), [Hold(b.items[i].obs, b.items[i].oldStatus)])
  {
    hide Batch.After;
    hide Evaluate;
    hide Touch;
    hide Tracked;
    hide Batch.ParkedAs;
    hide Batch.AllPass;
    MarkAlong(b, delivered, m, parked, c);
    ParkedMore(b, delivered, m, parked, i);
    parked' := parked[b.KeyOf(i) := b.items[i]];
    TouchParked(b.cfg, b.start.buffer, b.p, parked, parked');
    assert PendingOf(c, b.p) == parked;
    EvaluateParks(b.cfg, c, b.items[i], (b.epoch, b.base + m - 1), now);
  }

  lemma ParkedMore(b: Batch, delivered: set<nat>, m: nat, parked: Pending, i: nat)
    requires b.ParkedAs(parked, b.Waiting(delivered, m)) && m < i < b.Size() && i !in delivered
    ensures b.KeyOf(i) !in parked
    ensures b.ParkedAs(parked[b.KeyOf(i) := b.items[i]], b.Waiting(delivered + {i}, m))
  {
    assert b.KeyOf(i).1 - b.base == i;
  }

  lemma TouchParked(cfg: Config, buffer: Lru<string, Pending>, p: string, parked: Pending, parked': Pending)
    requires WellFormed(buffer, cfg.maxCache) && p !in buffer.val && |buffer.order| < cfg.maxCache
    requires parked' != map[]
    ensures Touch(WithParked(buffer, p, parked), p, parked', cfg.maxCache) == WithParked(buffer, p, parked')
  {
    WithoutLast(buffer.order, p);
    WithoutAbsent(buffer.order, p);
    var c := WithParked(buffer, p, parked);
    assert Without(c.order, p) + [p] == buffer.order + [p];
    assert c.val[p := parked'] == buffer.val[p := parked'];
  }

  lemma StoreParked(cfg: Config, buffer: Lru<string, Pending>, p: string, parked: Pending, left: Pending)
    requires p !in buffer.order && p !in buffer.val && parked != map[]
    ensures StorePending(WithParked(buffer, p, parked), p, left) == WithParked(buffer, p, left)
  {
    WithoutLast(buffer.order, p);
    var c := WithParked(buffer, p, parked);
    if left == map[] {
      assert c.val - {p} == buffer.val;
    } else {
      assert c.val[p := left] == buffer.val[p := left];
    }
  }

  /** The flush that follows item m. */
  lemma FlushAfter(b: Batch, delivered: set<nat>, m: nat, parked: Pending, now: real) returns (left: Pending)
    requires Ready(b) && m < b.Size() && m in delivered && b.UnexpiredAt(now)
    requires b.ParkedAs(parked, b.Waiting(delivered, m))
    requires FlushReady(b.cfg, b.After(m + 1).(buffer := WithParked(b.start.buffer, b.p, parked)), parked, b.p)
    ensures b.ParkedAs(left, b.Waiting(delivered, b.Frontier(delivered, m)))
    ensures
      var f := b.Frontier(delivered, m);
      f > m &&
      Flush(b.cfg, b.After(m + 1).(buffer := WithParked(b.start.buffer, b.p, parked)), b.p, now)
        == (b.After(f).(buffer := WithParked(b.start.buffer, b.p, left)), b.Results(m + 1, f))
  {
    hide Batch.After;
    hide Batch.ResultOf;
    hide FlushLoop;
    hide FlushReady;
    hide StorePending;
    var buffer := WithParked(b.start.buffer, b.p, parked);
    assert b.Frontier(delivered, m) == b.Frontier(delivered, m + 1);
    left := FlushDrains(b, buffer, delivered, m + 1, parked, now);
    if parked == map[] {
      NothingParked(b, delivered, m, parked);
      NothingWaiting(b, delivered, m, left);
      hide Batch.ParkedAs;
    } else {
      assert b.p !in b.start.buffer.order;
      StoreParked(b.cfg, b.start.buffer, b.p, parked, left);
    }
  }

  lemma NothingParked(b: Batch, delivered: set<nat>, m: nat, parked: Pending)
    requires b.ParkedAs(parked, b.Waiting(delivered, m)) && parked == map[] && m < b.Size()
    ensures b.Waiting(delivered, m) == {} && b.Frontier(delivered, m + 1) == m + 1
  {
    forall i: nat
      ensures i !in b.Waiting(delivered, m)
    {
      assert b.KeyOf(i).1 - b.base == i && b.KeyOf(i) !in parked;
    }
    assert m + 1 !in b.Waiting(delivered, m);
  }

  lemma NothingWaiting(b: Batch, delivered: set<nat>, m: nat, left: Pending)
    requires b.Waiting(delivered, m) == {} && b.ParkedAs(left, b.Waiting(delivered, m + 1))
    ensures left == map[]
  {
    assert b.Waiting(delivered, m + 1) == {};
    assert forall k :: k !in left;
  }

  /** The next item due is applied, and with it every parked item up to the next gap. */
  lemma ApplyOne(b: Batch, delivered: set<nat>, m: nat, parked: Pending, c: Core, now: real) returns (left: Pending)
    requires Ready(b) && Along(b, delivered, m, parked, c) && m < b.Size() && b.UnexpiredAt(now)
    ensures
      var f := b.Frontier(delivered + {m}, m);
      && b.ParkedAs(left, b.Waiting(delivered + {m}, f))
      && Evaluate(b.cfg, c, b.items[m].obs, b.items[m].oldStatus, now)
           == (b.After(f).(buffer := WithParked(b.start.buffer, b.p, left)), b.Results(m, f))
  {
    hide Batch.After;
    hide Batch.ResultOf;
    hide Evaluate;
    hide Apply;
    hide Flush;
    var buffer := WithParked(b.start.buffer, b.p, parked);
    var held := b.items[m];
    MarkAlong(b, delivered, m, parked, c);
    assert held.obs.peerId == b.p && held.obs.Key() == b.KeyOf(m) && !held.obs.IsStale(now);
    EvaluateApplies(b.cfg, c, held, now);
    AfterApply(b, buffer, m);
    ApplyKeepsReady(b.cfg, c, held.obs, held.oldStatus);
    ReadyToFlush(b, m, parked, c);
    assert b.Waiting(delivered + {m}, m) == b.Waiting(delivered, m);
    hide WellFormedCore;
    hide Tracked;
    hide FlushReady;
    left := FlushAfter(b, delivered + {m}, m, parked, now);
    hide Batch.ParkedAs;
  }

  lemma AfterApply(b: Batch, buffer: Lru<string, Pending>, m: nat)
    requires m < b.Size()
    ensures Apply(b.cfg, b.After(m).(buffer := buffer), b.items[m].obs, b.items[m].oldStatus)
         == (b.After(m + 1).(buffer := buffer), b.ResultOf(m))
  {
    ApplyIgnoresBuffer(b.cfg, b.After(m), buffer, b.items[m].obs, b.items[m].oldStatus);
    hide Apply;
  }

  lemma ReadyToFlush(b: Batch, m: nat, parked: Pending, c: Core)
    requires Ready(b) && m < b.Size()
    requires c == b.After(m).(buffer := WithParked(b.start.buffer, b.p, parked))
    requires
      var c1 := Apply(b.cfg, c, b.items[m].obs, b.items[m].oldStatus).0;
      && WellFormedCore(b.cfg, c1) && SeenBelow(c1, b.p, MarkOf(c1, b.p))
      && HeldAbove(PendingOf(c1, b.p), MarkOf(c1, b.p), 1)
    ensures FlushReady(b.cfg, b.After(m + 1).(buffer := WithParked(b.start.buffer, b.p, parked)), parked, b.p)
  {
    hide Batch.After;
    hide Apply;
    hide SeenBelow;
    hide WellFormed;
    AfterApply(b, WithParked(b.start.buffer, b.p, parked), m);
    var c1 := b.After(m + 1).(buffer := WithParked(b.start.buffer, b.p, parked));
    assert PendingOf(c1, b.p) == parked;
  }

  // ---- whole deliveries ----

  /** The calls that deliver the items of the given indices at the given times. */
  function Deliveries(b: Batch, order: seq<nat>, times: seq<real>): seq<Call>
    requires |times| == |order| && forall k :: 0 <= k < |order| ==> 0 <= order[k] < |b.items|
  {
    if order == [] then []
    else [Call(b.items[order[0]].obs, b.items[order[0]].oldStatus, times[0])] + Deliveries(b, order[1..], times[1..])
  }

  /** At no point are more than `bufferMax` items waiting for a gap to fill. */
  ghost predicate Bounded(b: Batch, delivered: set<nat>, order: seq<nat>)
    decreases |order|
  {
    order == [] ||
    (var now := delivered + {order[0]};
     |b.Waiting(now, b.Frontier(now, 0))| <= b.cfg.bufferMax && Bounded(b, now, order[1..]))
  }

  lemma ResultIsDecided(b: Batch, i: nat)
    requires i < b.Size()
    ensures b.ResultOf(i).decision != Buffered
  {
    hide Batch.After;
    ApplyEffect(b.cfg, b.After(i), b.items[i].obs, b.items[i].oldStatus);
    hide Apply;
  }

  lemma {:induction false} ResultsDecided(b: Batch, l: nat, n: nat)
    requires l <= n <= b.Size()
    ensures Decided(b.Results(l, n)) == b.Results(l, n)
    decreases n - l
  {
    hide Batch.ResultOf;
    if l < n {
      ResultIsDecided(b, l);
      ResultsDecided(b, l + 1, n);
      assert b.Results(l, n)[1..] == b.Results(l + 1, n);
    }
  }

  lemma {:induction false} FrontierSkips(b: Batch, delivered: set<nat>, l: nat, m: nat)
    requires l <= m <= b.Size() && forall i :: l <= i < m ==> i in delivered
    ensures b.Frontier(delivered, l) == b.Frontier(delivered, m)
    decreases m - l
  {
    if l < m {
      FrontierSkips(b, delivered, l + 1, m);
    }
  }

  /** One delivery moves the state along and decides the items up to the new frontier. */
  lemma DeliverOne(b: Batch, delivered: set<nat>, m: nat, parked: Pending, c: Core, i: nat, now: real)
    returns (parked': Pending)
    requires Ready(b) && Along(b, delivered, m, parked, c) && b.UnexpiredAt(now)
    requires i < b.Size() && i !in delivered && (m > 0 || Anchored(b) || i == 0)
    requires forall j :: j in delivered ==> j < b.Size()
    requires |b.Waiting(delivered + {i}, b.Frontier(delivered + {i}, 0))| <= b.cfg.bufferMax
    ensures
      var f := b.Frontier(delivered + {i}, m);
      var (c1, outs) := Evaluate(b.cfg, c, b.items[i].obs, b.items[i].oldStatus, now);
      Along(b, delivered + {i}, f, parked', c1) && Decided(outs) == b.Results(m, f)
  {
    hide Batch.After;
    hide Batch.ResultOf;
    hide Evaluate;
    hide WellFormedCore;
    hide Tracked;
    hide Batch.ParkedAs;
    hide WithParked;
    var f := b.Frontier(delivered + {i}, m);
    var held := b.items[i];
    assert held.obs.peerId == b.p;
    hide Batch.Valid;
    assert i != m ==> m < i;
    StaysWellFormed(b.cfg, c, held, now);
    if i == m {
      parked' := ApplyOne(b, delivered, m, parked, c, now);
      ResultsDecided(b, m, f);
      FrontierOpen(b, delivered, m, parked, c);
    } else {
      FrontierSkips(b, delivered + {i}, 0, m);
      RoomLeft(b, delivered, m, parked, i);
      parked' := ParkOne(b, delivered, m, parked, c, i, now);
      HoldNotDecided(held);
    }
  }

  lemma StaysWellFormed(cfg: Config, c: Core, held: Held, now: real)
    requires WellFormedCore(cfg, c) && Tracked(c, held.obs.peerId)
    ensures
      var c1 := Evaluate(cfg, c, held.obs, held.oldStatus, now).0;
      WellFormedCore(cfg, c1) && Tracked(c1, held.obs.peerId)
  {
    hide Evaluate;
    hide WellFormedCore;
    hide Tracked;
    hide Chain;
    hide ResultsShape;
    EvaluateInvariant(cfg, c, held.obs, held.oldStatus, now);
  }

  lemma HoldNotDecided(held: Held)
    ensures Decided([Hold(held.obs, held.oldStatus)]) == []
  {
    var o := Hold(held.obs, held.oldStatus);
    assert [o][1..] == [];
  }

  lemma FrontierOpen(b: Batch, delivered: set<nat>, m: nat, parked: Pending, c: Core)
    requires Along(b, delivered, m, parked, c) && m < b.Size()
    requires forall i :: i in delivered ==> i < b.Size()
    ensures b.Frontier(delivered + {m}, m) !in delivered + {m}
  {
  }

  lemma RoomLeft(b: Batch, delivered: set<nat>, m: nat, parked: Pending, i: nat)
    requires b.ParkedAs(parked, b.Waiting(delivered, m)) && m < i < b.Size() && i !in delivered
    requires |b.Waiting(delivered + {i}, m)| <= b.cfg.bufferMax
    ensures |parked| < b.cfg.bufferMax
  {
    ParkedSize(b, b.Waiting(delivered, m), parked);
    assert b.Waiting(delivered + {i}, m) == b.Waiting(delivered, m) + {i};
  }

  lemma ParkedMinus(b: Batch, waiting: set<nat>, parked: Pending, i: nat)
    requires b.ParkedAs(parked, waiting) && i in waiting
    ensures b.KeyOf(i) in parked && b.ParkedAs(parked - {b.KeyOf(i)}, waiting - {i})
  {
    assert b.KeyOf(i).1 - b.base == i;
  }

  lemma {:induction false} ParkedSize(b: Batch, waiting: set<nat>, parked: Pending)
    requires b.ParkedAs(parked, waiting)
    ensures |parked| == |waiting|
    decreases waiting
  {
    if waiting == {} {
      assert parked.Keys == {};
    } else {
      var i :| i in waiting;
      var k := b.KeyOf(i);
      ParkedMinus(b, waiting, parked, i);
      ParkedSize(b, waiting - {i}, parked - {k});
      assert parked.Keys == (parked - {k}).Keys + {k};
    }
  }

  /** The remaining deliveries finish the batch, with exactly the remaining in-order results. */
  lemma {:induction false} DeliverRest(b: Batch, delivered: set<nat>, m: nat, parked: Pending, c: Core,
                                       order: seq<nat>, times: seq<real>)
    requires Ready(b) && Along(b, delivered, m, parked, c)
    requires (forall k :: 0 <= k < |order| ==> order[k] < b.Size() && order[k] !in delivered) && NoDup(order)
    requires |times| == |order|
    requires forall i :: i in delivered ==> i < b.Size()
    requires forall i :: 0 <= i < b.Size() ==> i in delivered || i in order
    requires forall k :: 0 <= k < |times| ==> b.UnexpiredAt(times[k])
    requires Bounded(b, delivered, order)
    requires m > 0 || Anchored(b) || order == [] || order[0] == 0
    ensures
      var (c1, outs) := Run(b.cfg, c, Deliveries(b, order, times));
      c1 == b.After(b.Size()) && Decided(outs) == b.Results(m, b.Size())
    decreases |order|
  {
    hide Batch.After;
    hide Batch.ResultOf;
    hide Batch.ParkedAs;
    hide Batch.Waiting;
    hide Evaluate;
    hide Ready;
    hide WellFormedCore;
    hide Tracked;
    var calls := Deliveries(b, order, times);
    if order == [] {
      assert calls == [];
      assert m == b.Size();
      AllDelivered(b, delivered, m, parked, c);
    } else {
      var i, now := order[0], times[0];
      var rest, later := order[1..], times[1..];
      DeliverRestStep(b, delivered, order);
      DeliveriesUnfold(b, order, times);
      var parked' := DeliverOne(b, delivered, m, parked, c, i, now);
      var f := b.Frontier(delivered + {i}, m);
      var (c1, o1) := Evaluate(b.cfg, c, b.items[i].obs, b.items[i].oldStatus, now);
      assert f > 0 || Anchored(b);
      hide Along;
      DeliverRest(b, delivered + {i}, f, parked', c1, rest, later);
      var (c2, o2) := Run(b.cfg, c1, calls[1..]);
      DecidedAppend(o1, o2);
      ResultsJoin(b, m, f, b.Size());
    }
  }

  lemma DeliveriesUnfold(b: Batch, order: seq<nat>, times: seq<real>)
    requires order != [] && |times| == |order| && forall k :: 0 <= k < |order| ==> order[k] < |b.items|
    ensures
      var i, calls := order[0], Deliveries(b, order, times);
      && calls != [] && calls[0] == Call(b.items[i].obs, b.items[i].oldStatus, times[0])
      && calls[1..] == Deliveries(b, order[1..], times[1..])
  {
  }

  lemma DeliverRestStep(b: Batch, delivered: set<nat>, order: seq<nat>)
    requires order != [] && NoDup(order)
    requires forall k :: 0 <= k < |order| ==> order[k] < b.Size() && order[k] !in delivered
    requires forall i :: 0 <= i < b.Size() ==> i in delivered || i in order
    ensures
      var rest := order[1..];
      && (forall k :: 0 <= k < |rest| ==> rest[k] < b.Size() && rest[k] !in delivered + {order[0]})
      && NoDup(rest)
      && (forall i :: 0 <= i < b.Size() ==> i in delivered + {order[0]} || i in rest)
  {
    assert order == [order[0]] + order[1..];
  }

  lemma AllDelivered(b: Batch, delivered: set<nat>, m: nat, parked: Pending, c: Core)
    requires Ready(b) && Along(b, delivered, m, parked, c) && m == b.Size()
    ensures c == b.After(m)
  {
    hide Batch.After;
    AfterForm(b, m);
    assert b.Waiting(delivered, m) == {};
    assert forall k :: k !in parked;
    assert parked == map[];
  }

  /** An admissible delivery: every item once, each unexpired, starting at the base unless the
      watermark already stands below it, and never more than the buffer holds. */
  ghost predicate Admissible(b: Batch, order: seq<nat>, times: seq<real>) {
    && (forall k :: 0 <= k < |order| ==> order[k] < b.Size()) && NoDup(order) && |times| == |order|
    && (forall i :: 0 <= i < b.Size() ==> i in order)
    && (forall k :: 0 <= k < |times| ==> b.UnexpiredAt(times[k]))
    && (Anchored(b) || order == [] || order[0] == 0)
    && Bounded(b, {}, order)
  }

  /** Reordering is invisible: every admissible delivery order leaves exactly the state of in-order
      delivery, with nothing left in the buffer, and decides each item once, in ascending order,
      with its in-order result. */
  lemma ReorderingIsInvisible(b: Batch, order: seq<nat>, times: seq<real>)
    requires Ready(b) && Admissible(b, order, times)
    ensures
      var (c, outs) := Run(b.cfg, b.start, Deliveries(b, order, times));
      && c == b.After(b.Size())
      && Decided(outs) == b.Results(0, b.Size())
      && c.buffer == b.start.buffer && b.p !in c.buffer.val
  {
    hide Batch.After;
    hide Batch.ResultOf;
    hide Run;
    AfterNone(b);
    AfterForm(b, b.Size());
    assert b.Waiting({}, 0) == {};
    assert Along(b, {}, 0, map[], b.start);
    DeliverRest(b, {}, 0, map[], b.start, order, times);
  }

  /** So any two admissible deliveries agree on the final state and on every decided result, and
      with it on every audit entry apart from its time. */
  lemma DeliveryOrderIrrelevant(b: Batch, order: seq<nat>, times: seq<real>, order': seq<nat>, times': seq<real>)
    requires Ready(b) && Admissible(b, order, times) && Admissible(b, order', times')
    ensures Run(b.cfg, b.start, Deliveries(b, order, times)).0 == Run(b.cfg, b.start, Deliveries(b, order', times')).0
    ensures Decided(Run(b.cfg, b.start, Deliveries(b, order, times)).1)
         == Decided(Run(b.cfg, b.start, Deliveries(b, order', times')).1)
  {
    hide Run;
    hide Batch.After;
    hide Batch.ResultOf;
    hide Ready;
    ReorderingIsInvisible(b, order, times);
    ReorderingIsInvisible(b, order', times');
  }
}

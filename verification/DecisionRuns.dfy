/** Every verdict of the pipeline, over whole runs, from the trace of results alone
    (orchestrator/state_transition_manager.py:361-557). */
module DecisionRuns {
  import opened Prelude
  import opened LruCache
  import opened Observations
  import opened Equivocation
  import opened Reputation
  import opened XorDistance
  import opened KBuckets
  import opened WitnessGates
  import opened SybilSignals
  import opened StateTransition
  import opened TrustRuns

  /** The observation reached the gates, and so the equivocation log. */
  predicate Gated(o: Outcome) {
    o.decision == EquivocationFound || o.decision == InsufficientQuorum || o.decision == Approved || o.decision == SybilFlagged
  }

  /** The observations that reached the gates, in order. */
  function GatedObservations(outs: seq<Outcome>): seq<Observation> {
    if outs == [] then []
    else
      var n := |outs| - 1;
      GatedObservations(outs[..n]) + if Gated(outs[n]) then [outs[n].obs] else []
  }

  /** The updates that accepted observations make to the routing table, in order. */
  function Updates(outs: seq<Outcome>): Bucket {
    if outs == [] then []
    else
      var n := |outs| - 1;
      Updates(outs[..n]) + if outs[n].accepted then [(outs[n].obs.peerId, outs[n].obs.timestamp)] else []
  }

  // ---- every verdict is the gates' verdict on what was learnt before ----

  /** What the gates remember. */
  datatype Memory = Memory(equiv: Log, scores: Scores, table: Table)

  function MemoryOf(c: Core): Memory {
    Memory(c.equiv, c.scores, c.table)
  }

  function CoreOf(m: Memory): Core {
    Core(Empty(), Empty(), Empty(), m.equiv, m.scores, m.table)
  }

  function Learn(cfg: Config, m: Memory, o: Outcome): Memory {
    if !Gated(o) then m
    else
      Memory(Record(m.equiv, o.obs),
             if o.decision == EquivocationFound then RecordEquivocation(m.scores, o.obs.observerId) else m.scores,
             if o.accepted then Update(cfg.space, m.table, o.obs.peerId, o.obs.timestamp) else m.table)
  }

  function Recall(cfg: Config, m: Memory, outs: seq<Outcome>): Memory
    decreases |outs|
  {
    if outs == [] then m else Recall(cfg, Learn(cfg, m, outs[0]), outs[1..])
  }

  ghost predicate JudgedOne(cfg: Config, m: Memory, o: Outcome) {
    && (Gated(o) ==> o.(advanced := false) == Apply(cfg, CoreOf(m), o.obs, o.oldStatus).1)
    && (!Gated(o) ==> !o.accepted)
  }

  ghost predicate Judged(cfg: Config, m: Memory, outs: seq<Outcome>)
    decreases |outs|
  {
    outs == [] || (JudgedOne(cfg, m, outs[0]) && Judged(cfg, Learn(cfg, m, outs[0]), outs[1..]))
  }

  ghost predicate Watched(cfg: Config, c: Core, c1: Core, outs: seq<Outcome>) {
    MemoryOf(c1) == Recall(cfg, MemoryOf(c), outs) && Judged(cfg, MemoryOf(c), outs)
  }

  lemma {:induction false} RecallJoin(cfg: Config, m: Memory, a: seq<Outcome>, b: seq<Outcome>)
    ensures Recall(cfg, m, a + b) == Recall(cfg, Recall(cfg, m, a), b)
    ensures Judged(cfg, m, a) && Judged(cfg, Recall(cfg, m, a), b) ==> Judged(cfg, m, a + b)
    decreases |a|
  {
    hide Learn;
    hide JudgedOne;
    if a == [] {
      assert a + b == b;
    } else {
      assert (a + b)[1..] == a[1..] + b && (a + b)[0] == a[0];
      RecallJoin(cfg, Learn(cfg, m, a[0]), a[1..], b);
    }
  }

  lemma WatchedJoin(cfg: Config, c: Core, c1: Core, c2: Core, a: seq<Outcome>, b: seq<Outcome>)
    requires Watched(cfg, c, c1, a) && Watched(cfg, c1, c2, b)
    ensures Watched(cfg, c, c2, a + b)
  {
    hide Recall;
    hide Judged;
    RecallJoin(cfg, MemoryOf(c), a, b);
  }

  lemma WatchedOne(cfg: Config, c: Core, c1: Core, o: Outcome)
    requires MemoryOf(c1) == Learn(cfg, MemoryOf(c), o) && JudgedOne(cfg, MemoryOf(c), o)
    ensures Watched(cfg, c, c1, [o])
  {
    hide Learn;
    hide JudgedOne;
    var outs := [o];
    assert outs[1..] == [];
    assert Recall(cfg, MemoryOf(c1), outs[1..]) == MemoryOf(c1);
    assert Judged(cfg, MemoryOf(c1), outs[1..]);
  }

  lemma WatchedNothing(cfg: Config, c: Core, c1: Core)
    requires MemoryOf(c1) == MemoryOf(c)
    ensures Watched(cfg, c, c1, [])
  {
  }

  /** A result that bypasses the gates. */
  lemma Bypassed(cfg: Config, c: Core, c1: Core, o: Outcome)
    requires MemoryOf(c1) == MemoryOf(c) && !Gated(o) && !o.accepted
    ensures Watched(cfg, c, c1, [o])
  {
    WatchedOne(cfg, c, c1, o);
  }

  lemma ApplyJudged(cfg: Config, c: Core, obs: Observation, oldStatus: string)
    ensures
      var (c1, o) := Apply(cfg, c, obs, oldStatus);
      && o.obs == obs && o.oldStatus == oldStatus && !o.advanced && Gated(o)
      && MemoryOf(c1) == Learn(cfg, MemoryOf(c), o)
      && o == Apply(cfg, CoreOf(MemoryOf(c)), obs, oldStatus).1
  {
    hide Collect;
    hide Retained;
    hide Record;
    hide RecordEquivocation;
    hide Update;
    hide Score;
    hide Signal;
    hide HasQuorum;
    hide Touch;
  }

  lemma ApplyWatched(cfg: Config, c: Core, obs: Observation, oldStatus: string)
    ensures Watched(cfg, c, Apply(cfg, c, obs, oldStatus).0, [Apply(cfg, c, obs, oldStatus).1])
  {
    hide Apply;
    hide Learn;
    ApplyJudged(cfg, c, obs, oldStatus);
    var (c1, o) := Apply(cfg, c, obs, oldStatus);
    WatchedOne(cfg, c, c1, o);
  }

  lemma ApplyHeldWatched(cfg: Config, c: Core, held: Held)
    ensures Watched(cfg, c, ApplyHeld(cfg, c, held).0, [ApplyHeld(cfg, c, held).1])
  {
    hide Apply;
    hide Touch;
    hide Watched;
    hide Record;
    hide RecordEquivocation;
    hide Update;
    ApplyJudged(cfg, c, held.obs, held.oldStatus);
    var (c1, o) := ApplyHeld(cfg, c, held);
    WatchedOne(cfg, c, c1, o);
  }

  lemma {:induction false} FlushLoopWatched(cfg: Config, c: Core, pending: Pending, p: string, now: real)
    ensures Watched(cfg, c, FlushLoop(cfg, c, pending, p, now).0, FlushLoop(cfg, c, pending, p, now).2)
    decreases pending.Keys
  {
    hide ApplyHeld;
    hide Touch;
    hide Watched;
    WatchedNothing(cfg, c, c);
    if p in c.last.val && NextOf(c.last.val[p]) in pending {
      var next := NextOf(c.last.val[p]);
      var held, rest := pending[next], pending - {next};
      assert next in pending.Keys && next !in rest.Keys;
      if held.obs.IsStale(now) {
        Bypassed(cfg, c, c, Reject(held.obs, held.oldStatus, Stale));
      } else if DedupOf(held.obs) in c.seen.val {
        var c1 := c.(last := Touch(c.last, p, held.obs.Key(), cfg.maxCache));
        FlushLoopWatched(cfg, c1, rest, p, now);
        SameMemory(cfg, c, c1, FlushLoop(cfg, c1, rest, p, now).0, FlushLoop(cfg, c1, rest, p, now).2);
      } else {
        ApplyHeldWatched(cfg, c, held);
        var (c1, o) := ApplyHeld(cfg, c, held);
        FlushLoopWatched(cfg, c1, rest, p, now);
        var (c2, left, os) := FlushLoop(cfg, c1, rest, p, now);
        WatchedJoin(cfg, c, c1, c2, [o], os);
      }
    }
  }

  /** Only what is remembered matters. */
  lemma SameMemory(cfg: Config, c: Core, c1: Core, c2: Core, outs: seq<Outcome>)
    requires MemoryOf(c) == MemoryOf(c1) && Watched(cfg, c1, c2, outs)
    ensures Watched(cfg, c, c2, outs)
  {
  }

  lemma SameMemoryAfter(cfg: Config, c: Core, c1: Core, c2: Core, outs: seq<Outcome>)
    requires Watched(cfg, c, c1, outs) && MemoryOf(c1) == MemoryOf(c2)
    ensures Watched(cfg, c, c2, outs)
  {
  }

  lemma FlushWatched(cfg: Config, c: Core, p: string, now: real)
    ensures Watched(cfg, c, Flush(cfg, c, p, now).0, Flush(cfg, c, p, now).1)
  {
    hide FlushLoop;
    hide StorePending;
    hide Watched;
    WatchedNothing(cfg, c, c);
    if p in c.buffer.val && c.buffer.val[p] != map[] {
      var (c1, left, outs) := FlushLoop(cfg, c, c.buffer.val[p], p, now);
      FlushLoopWatched(cfg, c, c.buffer.val[p], p, now);
      SameMemoryAfter(cfg, c, c1, Flush(cfg, c, p, now).0, outs);
    }
  }

  lemma BufferWatched(cfg: Config, c: Core, obs: Observation, oldStatus: string, now: real)
    ensures
      var (c1, o) := BufferObservation(cfg, c, obs, oldStatus, now);
      Watched(cfg, c, c1, [o])
  {
    hide Touch;
    hide Watched;
    var (c1, o) := BufferObservation(cfg, c, obs, oldStatus, now);
    Bypassed(cfg, c, c1, o);
  }

  lemma StepWatched(cfg: Config, c: Core, call: Call)
    ensures Watched(cfg, c, Step(cfg, c, call).0, Step(cfg, c, call).1)
  {
    hide Apply;
    hide Flush;
    hide BufferObservation;
    hide Watched;
    var obs, oldStatus, now := call.obs, call.oldStatus, call.now;
    Bypassed(cfg, c, c, Reject(obs, oldStatus, Duplicate));
    Bypassed(cfg, c, c, Reject(obs, oldStatus, Stale));
    BufferWatched(cfg, c, obs, oldStatus, now);
    ApplyWatched(cfg, c, obs, oldStatus);
    var (c1, o) := Apply(cfg, c, obs, oldStatus);
    FlushWatched(cfg, c1, obs.peerId, now);
    var (c2, os) := Flush(cfg, c1, obs.peerId, now);
    WatchedJoin(cfg, c, c1, c2, [o], os);
  }

  lemma {:induction false} RunWatched(cfg: Config, c: Core, calls: seq<Call>)
    ensures Watched(cfg, c, Run(cfg, c, calls).0, Run(cfg, c, calls).1)
    decreases |calls|
  {
    hide Step;
    hide Watched;
    if calls == [] {
      WatchedNothing(cfg, c, c);
    } else {
      StepWatched(cfg, c, calls[0]);
      var (c1, o1) := Step(cfg, c, calls[0]);
      RunWatched(cfg, c1, calls[1..]);
      var (c2, o2) := Run(cfg, c1, calls[1..]);
      WatchedJoin(cfg, c, c1, c2, o1, o2);
    }
  }

  // ---- at one result ----

  lemma {:induction false} JudgedAt(cfg: Config, mem: Memory, outs: seq<Outcome>, m: nat)
    requires Judged(cfg, mem, outs) && m < |outs|
    ensures JudgedOne(cfg, Recall(cfg, mem, outs[..m]), outs[m])
    decreases |outs|
  {
    hide JudgedOne;
    hide Learn;
    if m == 0 {
      assert outs[..0] == [];
    } else {
      JudgedAt(cfg, Learn(cfg, mem, outs[0]), outs[1..], m - 1);
      assert outs[..m][1..] == outs[1..][..m - 1] && outs[..m][0] == outs[0];
    }
  }

  function NoMemory(): Memory {
    Memory(map[], map[], map[])
  }

  /** What is remembered after a trace: the gated observations, penalties for the caught observers, and
      the routing updates of the accepted ones. */
  ghost predicate Remembers(cfg: Config, mem: Memory, outs: seq<Outcome>) {
    && mem.equiv == RecordAll(GatedObservations(outs))
    && OnlyPenalties(mem.scores) && mem.scores.Keys == CaughtBy(outs)
    && mem.table == UpdateAll(cfg.space, Updates(outs))
  }

  ghost predicate AcceptedAreGated(outs: seq<Outcome>) {
    forall i :: 0 <= i < |outs| && outs[i].accepted ==> Gated(outs[i])
  }

  lemma RecallOne(cfg: Config, mem: Memory, front: seq<Outcome>, o: Outcome)
    ensures Recall(cfg, mem, front + [o]) == Learn(cfg, Recall(cfg, mem, front), o)
  {
    hide Learn;
    var last := [o];
    RecallJoin(cfg, mem, front, last);
    assert last[1..] == [];
  }

  lemma GatedOne(front: seq<Outcome>, o: Outcome)
    ensures GatedObservations(front + [o]) == GatedObservations(front) + if Gated(o) then [o.obs] else []
    ensures Updates(front + [o]) == Updates(front) + if o.accepted then [(o.obs.peerId, o.obs.timestamp)] else []
    ensures CaughtBy(front + [o]) == CaughtBy(front) + if o.decision == EquivocationFound then {o.obs.observerId} else {}
  {
    assert (front + [o])[..|front|] == front;
  }

  lemma RecordOne(h: seq<Observation>, obs: Observation)
    ensures RecordAll(h + [obs]) == Record(RecordAll(h), obs)
  {
    assert (h + [obs])[..|h|] == h;
  }

  lemma UpdateOne(space: Space, h: Bucket, e: (string, real))
    ensures UpdateAll(space, h + [e]) == Update(space, UpdateAll(space, h), e.0, e.1)
  {
    assert (h + [e])[..|h|] == h;
  }

  lemma NothingRemembered(cfg: Config)
    ensures Remembers(cfg, NoMemory(), [])
  {
    assert CaughtBy([]) == {};
  }

  lemma LearnRemembers(cfg: Config, mem: Memory, front: seq<Outcome>, o: Outcome)
    requires Remembers(cfg, mem, front) && (o.accepted ==> Gated(o))
    ensures Remembers(cfg, Learn(cfg, mem, o), front + [o])
  {
    hide Record;
    hide Update;
    hide GatedObservations;
    hide Updates;
    hide CaughtBy;
    hide RecordAll;
    hide UpdateAll;
    GatedOne(front, o);
    RecordOne(GatedObservations(front), o.obs);
    UpdateOne(cfg.space, Updates(front), (o.obs.peerId, o.obs.timestamp));
    PenaltiesAreFinalFor(mem.scores, o.obs.observerId);
    assert GatedObservations(front) + [] == GatedObservations(front) && Updates(front) + [] == Updates(front);
  }

  lemma PenaltiesAreFinalFor(scores: Scores, id: string)
    requires OnlyPenalties(scores)
    ensures OnlyPenalties(RecordEquivocation(scores, id)) && RecordEquivocation(scores, id).Keys == scores.Keys + {id}
  {
    PenaltiesAreFinal(scores, id, 1.0, id);
  }

  lemma {:induction false} RecallRemembers(cfg: Config, outs: seq<Outcome>)
    requires AcceptedAreGated(outs)
    ensures Remembers(cfg, Recall(cfg, NoMemory(), outs), outs)
  {
    hide Remembers;
    hide Learn;
    if outs == [] {
      NothingRemembered(cfg);
    } else {
      hide Recall;
      var n := |outs| - 1;
      var front, o := outs[..n], outs[n];
      assert outs == front + [o];
      RecallRemembers(cfg, front);
      RecallOne(cfg, NoMemory(), front, o);
      LearnRemembers(cfg, Recall(cfg, NoMemory(), front), front, o);
    }
  }

  lemma {:induction false} JudgedAreGated(cfg: Config, mem: Memory, outs: seq<Outcome>)
    requires Judged(cfg, mem, outs)
    ensures AcceptedAreGated(outs)
    decreases |outs|
  {
    hide Learn;
    if outs != [] {
      JudgedAreGated(cfg, Learn(cfg, mem, outs[0]), outs[1..]);
      assert forall i :: 1 <= i < |outs| ==> outs[i] == outs[1..][i - 1];
    }
  }

  // ---- the window, in terms of observations ----

  /** The earlier observations of the same peer and epoch that reached the gates, oldest first. */
  function PriorReports(history: seq<Observation>, obs: Observation): seq<Observation> {
    if history == [] then []
    else
      var n := |history| - 1;
      PriorReports(history[..n], obs)
      + if history[n].peerId == obs.peerId && history[n].epoch == obs.epoch then [history[n]] else []
  }

  lemma {:induction false} EntriesOfReports(history: seq<Observation>, obs: Observation)
    ensures |EntriesFor(history, ScopeOf(obs))| == |PriorReports(history, obs)|
    ensures forall i :: 0 <= i < |PriorReports(history, obs)| ==>
              EntriesFor(history, ScopeOf(obs))[i] == EntryOf(PriorReports(history, obs)[i])
  {
    hide EntryOf;
    if history != [] {
      EntriesOfReports(history[..|history| - 1], obs);
    }
  }

  /** What a report is compared with: the last 49 reports on its peer and epoch before it. */
  function Window(history: seq<Observation>, obs: Observation): seq<Observation> {
    LastN(49, PriorReports(history, obs))
  }

  lemma RetainedIsWindow(history: seq<Observation>, obs: Observation)
    ensures |Retained(RecordAll(history), obs)| == |Window(history, obs)|
    ensures forall i :: 0 <= i < |Window(history, obs)| ==>
              Retained(RecordAll(history), obs)[i] == EntryOf(Window(history, obs)[i])
  {
    hide RecordAll;
    hide EntriesFor;
    hide PriorReports;
    hide EntryOf;
    WindowIsSuffix(history, ScopeOf(obs));
    EntriesOfReports(history, obs);
    var all := EntriesFor(history, ScopeOf(obs));
    if |all| >= MAX_OBSERVATIONS_PER_KEY {
      assert LastN(MAX_OBSERVATIONS_PER_KEY, all)[1..] == LastN(49, all);
    }
  }

  /** One of these reports is by the same observer, from the same provenance, and says the opposite. */
  ghost predicate Opposed(reports: seq<Observation>, obs: Observation) {
    exists i :: 0 <= i < |reports| && reports[i].observerId == obs.observerId
      && reports[i].provenance == obs.provenance && reports[i].kind != obs.kind
  }

  lemma CollectedExactly(history: seq<Observation>, obs: Observation)
    ensures Collect(Retained(RecordAll(history), obs), obs) != [] <==> Opposed(Window(history, obs), obs)
  {
    hide RecordAll;
    hide Retained;
    hide Window;
    var priors, reports := Retained(RecordAll(history), obs), Window(history, obs);
    RetainedIsWindow(history, obs);
    EvidenceIsExact(priors, obs);
    if Opposed(reports, obs) {
      var i :| 0 <= i < |reports| && reports[i].observerId == obs.observerId
        && reports[i].provenance == obs.provenance && reports[i].kind != obs.kind;
      assert priors[i] == EntryOf(reports[i]);
      assert Proves(priors[i], obs, EvidenceOf(priors[i], obs));
      assert ContradictedBy(priors, obs, EvidenceOf(priors[i], obs));
    }
    if Collect(priors, obs) != [] {
      FirstIsMember(Collect(priors, obs));
      var i :| 0 <= i < |priors| && Proves(priors[i], obs, Collect(priors, obs)[0]);
      assert reports[i].observerId == obs.observerId;
    }
  }

  lemma FirstIsMember<T(!new)>(s: seq<T>)
    requires s != []
    ensures s[0] in s
  {
  }

  // ---- the weighted score ----

  /** The provenance buckets with a witness that has not been caught. */
  function CleanBuckets(bucketOf: string -> string, caught: set<string>, ws: seq<Observation>): set<string> {
    set i: int | 0 <= i < |ws| && ws[i].observerId !in caught :: bucketOf(ws[i].provenance)
  }

  /** How many keys of a list belong to a set, in units. */
  function Units(order: seq<string>, clean: set<string>, unit: real): real {
    if order == [] then 0.0
    else Units(order[..|order| - 1], clean, unit) + if order[|order| - 1] in clean then unit else 0.0
  }

  lemma {:induction false} SumIsUnits(order: seq<string>, best: map<string, real>, clean: set<string>, unit: real)
    requires forall b :: b in order ==> b in best && best[b] == if b in clean then unit else 0.0
    ensures SumBest(order, best) == Units(order, clean, unit)
  {
    if order != [] {
      var n := |order| - 1;
      assert order == order[..n] + [order[n]];
      SumIsUnits(order[..n], best, clean, unit);
    }
  }

  function Worth(unit: real, n: nat): real {
    unit * n as real
  }

  lemma OneMore(unit: real, n: nat)
    ensures Worth(unit, 0) == 0.0 && Worth(unit, n + 1) == Worth(unit, n) + unit
  {
  }

  function Counted(order: seq<string>, clean: set<string>): set<string> {
    set b | b in order && b in clean
  }

  lemma CountedStep(front: seq<string>, x: string, clean: set<string>)
    requires x !in front
    ensures |Counted(front + [x], clean)| == |Counted(front, clean)| + if x in clean then 1 else 0
  {
    assert Counted(front + [x], clean) == Counted(front, clean) + if x in clean then {x} else {};
  }

  lemma {:induction false} UnitsCount(order: seq<string>, clean: set<string>, unit: real)
    requires NoDup(order)
    ensures Units(order, clean, unit) == Worth(unit, |Counted(order, clean)|)
    decreases |order|
  {
    hide Worth;
    if order == [] {
      assert Counted(order, clean) == {};
      OneMore(unit, 0);
    } else {
      var n := |order| - 1;
      var front, x := order[..n], order[n];
      assert order == front + [x];
      UnitsCount(front, clean, unit);
      CountedStep(front, x, clean);
      OneMore(unit, |Counted(front, clean)|);
    }
  }

  /** The weight of a witness that has not been caught, with a negative one counting nothing. */
  function Unit(neutral: real): real {
    if neutral > 0.0 then neutral else 0.0
  }

  lemma {:induction false} BestIsUnitOrNothing(bucketOf: string -> string, caught: set<string>, w: string -> real, neutral: real,
                                               ws: seq<Observation>, b: string)
    requires forall id :: w(id) == if id in caught then 0.0 else neutral
    requires b in TallyVotes(bucketOf, w, ws).best
    ensures TallyVotes(bucketOf, w, ws).best[b] == if b in CleanBuckets(bucketOf, caught, ws) then Unit(neutral) else 0.0
  {
    var n := |ws| - 1;
    var front := ws[..n];
    CleanStep(bucketOf, caught, ws);
    var t0 := TallyVotes(bucketOf, w, front);
    if b in t0.best {
      BestIsUnitOrNothing(bucketOf, caught, w, neutral, front, b);
    } else {
      CleanAreTallied(bucketOf, caught, w, front, b);
    }
  }

  lemma CleanStep(bucketOf: string -> string, caught: set<string>, ws: seq<Observation>)
    requires ws != []
    ensures
      var w := ws[|ws| - 1];
      CleanBuckets(bucketOf, caught, ws)
        == CleanBuckets(bucketOf, caught, ws[..|ws| - 1]) + if w.observerId in caught then {} else {bucketOf(w.provenance)}
  {
    var n := |ws| - 1;
    var front := ws[..n];
    assert forall i :: 0 <= i < n ==> front[i] == ws[i];
    forall b: string
      ensures b in CleanBuckets(bucketOf, caught, ws)
         <==> b in CleanBuckets(bucketOf, caught, front) || (ws[n].observerId !in caught && b == bucketOf(ws[n].provenance))
    {
      if b in CleanBuckets(bucketOf, caught, front) {
        var i: int :| 0 <= i < n && front[i].observerId !in caught && bucketOf(front[i].provenance) == b;
        assert ws[i].observerId !in caught && bucketOf(ws[i].provenance) == b;
      }
    }
  }

  lemma CleanAreTallied(bucketOf: string -> string, caught: set<string>, w: string -> real, ws: seq<Observation>, b: string)
    requires b !in TallyVotes(bucketOf, w, ws).best
    ensures b !in CleanBuckets(bucketOf, caught, ws)
  {
    forall i | 0 <= i < |ws|
      ensures bucketOf(ws[i].provenance) != b
    {
      TallyCovers(bucketOf, w, ws, i);
    }
  }

  /** With the neutral weight for the uncaught and zero for the caught, the score is the neutral weight
      times the number of provenance buckets that have an uncaught witness. */
  lemma ScoreCountsCleanBuckets(bucketOf: string -> string, caught: set<string>, w: string -> real, neutral: real, ws: seq<Observation>)
    requires forall id :: w(id) == if id in caught then 0.0 else neutral
    ensures Score(bucketOf, w, ws) == Unit(neutral) * |CleanBuckets(bucketOf, caught, ws)| as real
  {
    hide TallyVotes;
    hide CleanBuckets;
    hide SumBest;
    hide Units;
    hide Unit;
    var t, clean := TallyVotes(bucketOf, w, ws), CleanBuckets(bucketOf, caught, ws);
    TallyListsBuckets(bucketOf, w, ws);
    forall b | b in t.order
      ensures b in t.best && t.best[b] == if b in clean then Unit(neutral) else 0.0
    {
      BestIsUnitOrNothing(bucketOf, caught, w, neutral, ws, b);
    }
    SumIsUnits(t.order, t.best, clean, Unit(neutral));
    UnitsCount(t.order, clean, Unit(neutral));
    forall b | b in clean
      ensures b in t.order
    {
      if b !in t.best {
        CleanAreTallied(bucketOf, caught, w, ws, b);
      }
    }
    assert Counted(t.order, clean) == clean;
  }

  // ---- the verdict ----

  /** Enough witnesses: two observers, two buckets, and as many buckets with an uncaught witness, each worth
      the neutral weight, as the threshold asks for. */
  ghost predicate Vouched(cfg: Config, caught: set<string>, obs: Observation) {
    && |set w | w in obs.witnesses :: w.observerId| >= 2
    && |set w | w in obs.witnesses :: cfg.bucketOf(w.provenance)| >= 2
    && Unit(cfg.neutral) * |CleanBuckets(cfg.bucketOf, caught, obs.witnesses)| as real >= cfg.threshold
  }

  /** The verdict on a report after a trace, in terms of the trace. */
  ghost predicate VerdictFits(cfg: Config, prior: seq<Outcome>, o: Outcome) {
    var obs := o.obs;
    var opposed := Opposed(Window(GatedObservations(prior), obs), obs);
    var vouched := Vouched(cfg, CaughtBy(prior), obs);
    var close := ClosePairs(cfg.space, cfg.proximityBits, obs);
    var stored := StoredWitnesses(cfg.space, UpdateAll(cfg.space, Updates(prior)), obs);
    && (o.decision == EquivocationFound <==> opposed)
    && (o.decision == InsufficientQuorum <==> !opposed && !vouched)
    && (o.decision == Approved <==> !opposed && vouched && close == {} && stored == {})
    && (o.decision == SybilFlagged <==> !opposed && vouched && (close != {} || stored != {}))
    && (o.accepted <==> o.decision == Approved || o.decision == SybilFlagged)
    && (o.accepted ==> o.signal.Some? && (o.signal.value == Strong <==> |close| >= 2 || |stored| >= 2))
  }

  lemma QuorumSets(cfg: Config, obs: Observation)
    ensures HasQuorum(cfg.bucketOf, obs) <==>
      && |set w | w in obs.witnesses :: w.observerId| >= 2
      && |set w | w in obs.witnesses :: cfg.bucketOf(w.provenance)| >= 2
  {
    var ids := set w | w in obs.witnesses :: w.observerId;
    assert ids == ObserverSet(obs.witnesses);
    assert (set w | w in obs.witnesses :: cfg.bucketOf(w.provenance)) == BucketSet(cfg.bucketOf, obs.witnesses);
    if |obs.witnesses| < 2 {
      FewObservers(obs.witnesses, ids);
    }
  }

  lemma FewObservers(ws: seq<Observation>, ids: set<string>)
    requires |ws| < 2 && ids == set w | w in ws :: w.observerId
    ensures |ids| < 2
  {
    if ws == [] {
      assert ids == {};
    } else {
      assert ws == [ws[0]];
      assert ids == {ws[0].observerId};
    }
  }

  lemma GatesDecide(cfg: Config, mem: Memory, prior: seq<Outcome>, obs: Observation, oldStatus: string)
    requires Remembers(cfg, mem, prior)
    ensures VerdictFits(cfg, prior, Apply(cfg, CoreOf(mem), obs, oldStatus).1)
  {
    hide Window;
    hide Opposed;
    hide GatedObservations;
    hide Updates;
    hide CaughtBy;
    hide RecordAll;
    hide UpdateAll;
    hide Collect;
    hide Retained;
    hide Record;
    hide Update;
    hide Score;
    hide Signal;
    hide HasQuorum;
    hide ClosePairs;
    hide StoredWitnesses;
    hide CleanBuckets;
    hide Touch;
    CollectedExactly(GatedObservations(prior), obs);
    QuorumSets(cfg, obs);
    hide Unit;
    CleanScore(cfg, mem, prior, obs);
    SignalExactly(cfg.space, cfg.proximityBits, mem.table, obs);
  }

  lemma SameVerdict(cfg: Config, prior: seq<Outcome>, o: Outcome)
    requires VerdictFits(cfg, prior, o.(advanced := false))
    ensures VerdictFits(cfg, prior, o)
  {
  }

  lemma FreshMemory()
    ensures MemoryOf(Fresh()) == NoMemory()
  {
  }

  /** Every verdict, over any run from a fresh manager, direct and flushed results alike. A report that
      reaches the gates is an equivocation if and only if one of the last 49 reports on its peer and epoch
      is by the same observer from the same provenance and says the opposite. Otherwise it is accepted if
      and only if it has two observers, two provenance buckets, and as many buckets with a witness not
      caught so far, each worth the neutral weight, as the threshold asks for. An accepted one is flagged
      if and only if two keys among the peer and its witnesses share their upper bits, or a witness is
      stored in the peer's distance class of the table that the accepted reports so far have built; the
      signal is strong if and only if there are two such pairs or two such entries. Nothing else is
      accepted. */
  lemma DecisionsAreExact(cfg: Config, calls: seq<Call>, m: nat)
    requires m < |Run(cfg, Fresh(), calls).1|
    ensures
      var outs := Run(cfg, Fresh(), calls).1;
      if Gated(outs[m]) then VerdictFits(cfg, outs[..m], outs[m]) else !outs[m].accepted
  {
    hide Run;
    hide VerdictFits;
    hide Remembers;
    hide Apply;
    var outs := Run(cfg, Fresh(), calls).1;
    RunWatched(cfg, Fresh(), calls);
    FreshMemory();
    JudgedAt(cfg, NoMemory(), outs, m);
    JudgedAreGated(cfg, NoMemory(), outs);
    RecallRemembers(cfg, outs[..m]);
    if Gated(outs[m]) {
      GatesDecide(cfg, Recall(cfg, NoMemory(), outs[..m]), outs[..m], outs[m].obs, outs[m].oldStatus);
      SameVerdict(cfg, outs[..m], outs[m]);
    }
  }

  // ---- what a verdict comes with ----

  /** The evidence names exactly the contradicted reports among the last 49; the score is missing until both
      quorum sets are large enough, and counts the clean buckets; only an accepted result has a signal. */
  ghost predicate ReasonsFit(cfg: Config, prior: seq<Outcome>, o: Outcome) {
    && (forall e :: e in o.evidences <==> ProvedBy(Window(GatedObservations(prior), o.obs), o.obs, e))
    && o.score == ScoreAfter(cfg, prior, o.obs)
    && (o.signal.Some? <==> o.accepted)
  }

  ghost function ScoreAfter(cfg: Config, prior: seq<Outcome>, obs: Observation): Option<real> {
    if Opposed(Window(GatedObservations(prior), obs), obs) || !Quorate(cfg, obs) then None
    else Some(Worth(Unit(cfg.neutral), |CleanBuckets(cfg.bucketOf, CaughtBy(prior), obs.witnesses)|))
  }

  ghost predicate ProvedBy(reports: seq<Observation>, obs: Observation, e: Evidence) {
    exists i :: 0 <= i < |reports| && Proves(EntryOf(reports[i]), obs, e)
  }

  /** Two observers and two provenance buckets. */
  ghost predicate Quorate(cfg: Config, obs: Observation) {
    |set w | w in obs.witnesses :: w.observerId| >= 2 && |set w | w in obs.witnesses :: cfg.bucketOf(w.provenance)| >= 2
  }

  lemma QuorateExactly(cfg: Config, obs: Observation)
    ensures HasQuorum(cfg.bucketOf, obs) <==> Quorate(cfg, obs)
  {
    QuorumSets(cfg, obs);
  }

  lemma EvidenceFromWindow(history: seq<Observation>, obs: Observation, e: Evidence)
    ensures
      e in Collect(Retained(RecordAll(history), obs), obs) <==> ProvedBy(Window(history, obs), obs, e)
  {
    hide RecordAll;
    hide Retained;
    hide Window;
    hide Proves;
    hide EntryOf;
    var priors, window := Retained(RecordAll(history), obs), Window(history, obs);
    RetainedIsWindow(history, obs);
    EvidenceIsExact(priors, obs);
    if ContradictedBy(priors, obs, e) {
      var i :| 0 <= i < |priors| && Proves(priors[i], obs, e);
      assert Proves(EntryOf(window[i]), obs, e);
    }
    if ProvedBy(window, obs, e) {
      var i :| 0 <= i < |window| && Proves(EntryOf(window[i]), obs, e);
      assert Proves(priors[i], obs, e);
    }
  }

  lemma ApplyReasons(cfg: Config, c: Core, obs: Observation, oldStatus: string)
    ensures
      var o := Apply(cfg, c, obs, oldStatus).1;
      var evidences := Collect(Retained(c.equiv, obs), obs);
      && o.evidences == evidences
      && o.score == (if evidences != [] || !HasQuorum(cfg.bucketOf, obs) then None
                     else Some(Score(cfg.bucketOf, WeightOf(cfg, c.scores), obs.witnesses)))
      && (o.signal.Some? <==> o.accepted) && o.obs == obs
  {
    hide Collect;
    hide Retained;
    hide Record;
    hide RecordEquivocation;
    hide Update;
    hide Score;
    hide Signal;
    hide HasQuorum;
    hide Touch;
  }

  lemma ScoreIsAsTraced(cfg: Config, prior: seq<Outcome>, o: Outcome, w: string -> real)
    requires o.evidences != [] <==> Opposed(Window(GatedObservations(prior), o.obs), o.obs)
    requires HasQuorum(cfg.bucketOf, o.obs) <==> Quorate(cfg, o.obs)
    requires Score(cfg.bucketOf, w, o.obs.witnesses)
          == Worth(Unit(cfg.neutral), |CleanBuckets(cfg.bucketOf, CaughtBy(prior), o.obs.witnesses)|)
    requires o.score == if o.evidences != [] || !HasQuorum(cfg.bucketOf, o.obs) then None
                        else Some(Score(cfg.bucketOf, w, o.obs.witnesses))
    ensures o.score == ScoreAfter(cfg, prior, o.obs)
  {
    hide Worth;
    hide Score;
    hide HasQuorum;
    hide Quorate;
    hide Opposed;
    hide Window;
    hide CleanBuckets;
    hide Unit;
  }

  lemma GateReasons(cfg: Config, mem: Memory, prior: seq<Outcome>, obs: Observation, oldStatus: string, o: Outcome)
    requires Remembers(cfg, mem, prior) && o.(advanced := false) == Apply(cfg, CoreOf(mem), obs, oldStatus).1
    ensures ReasonsFit(cfg, prior, o)
  {
    hide Apply;
    hide Window;
    hide Opposed;
    hide GatedObservations;
    hide Updates;
    hide CaughtBy;
    hide RecordAll;
    hide UpdateAll;
    hide Collect;
    hide Retained;
    hide Score;
    hide HasQuorum;
    hide CleanBuckets;
    hide Proves;
    hide Unit;
    hide ProvedBy;
    hide Quorate;
    hide WeightOf;
    ApplyReasons(cfg, CoreOf(mem), obs, oldStatus);
    CollectedExactly(GatedObservations(prior), obs);
    QuorateExactly(cfg, obs);
    CleanScore(cfg, mem, prior, obs);
    forall e: Evidence
      ensures e in o.evidences <==> ProvedBy(Window(GatedObservations(prior), obs), obs, e)
    {
      EvidenceFromWindow(GatedObservations(prior), obs, e);
    }
    ScoreIsAsTraced(cfg, prior, o, WeightOf(cfg, mem.scores));
  }

  lemma CleanScore(cfg: Config, mem: Memory, prior: seq<Outcome>, obs: Observation)
    requires Remembers(cfg, mem, prior)
    ensures Score(cfg.bucketOf, WeightOf(cfg, mem.scores), obs.witnesses)
         == Unit(cfg.neutral) * |CleanBuckets(cfg.bucketOf, CaughtBy(prior), obs.witnesses)| as real
  {
    hide CaughtBy;
    hide Score;
    hide CleanBuckets;
    hide Unit;
    var w := WeightOf(cfg, mem.scores);
    assert forall id :: w(id) == if id in CaughtBy(prior) then 0.0 else cfg.neutral;
    ScoreCountsCleanBuckets(cfg.bucketOf, CaughtBy(prior), w, cfg.neutral, obs.witnesses);
  }

  /** Every gated result, direct or flushed, carries the evidence, score and signal that its trace calls
      for. */
  lemma ResultsCarryTheirReasons(cfg: Config, calls: seq<Call>, m: nat)
    requires m < |Run(cfg, Fresh(), calls).1| && Gated(Run(cfg, Fresh(), calls).1[m])
    ensures ReasonsFit(cfg, Run(cfg, Fresh(), calls).1[..m], Run(cfg, Fresh(), calls).1[m])
  {
    hide Run;
    hide ReasonsFit;
    hide Remembers;
    hide Apply;
    var outs := Run(cfg, Fresh(), calls).1;
    RunWatched(cfg, Fresh(), calls);
    FreshMemory();
    JudgedAt(cfg, NoMemory(), outs, m);
    JudgedAreGated(cfg, NoMemory(), outs);
    RecallRemembers(cfg, outs[..m]);
    GateReasons(cfg, Recall(cfg, NoMemory(), outs[..m]), outs[..m], outs[m].obs, outs[m].oldStatus, outs[m]);
  }

  lemma ApplyCatches(cfg: Config, c: Core, obs: Observation, oldStatus: string)
    ensures
      var o := Apply(cfg, c, obs, oldStatus).1;
      && (o.decision == EquivocationFound <==> Collect(Retained(c.equiv, obs), obs) != [])
      && (o.accepted ==> o.decision != EquivocationFound)
  {
    hide Collect;
    hide Retained;
    hide Record;
    hide Score;
    hide Signal;
    hide HasQuorum;
    hide Touch;
  }

  /** The equivocation half holds whatever the weights are. */
  lemma CaughtExactly(cfg: Config, calls: seq<Call>, m: nat)
    requires m < |Run(cfg, Fresh(), calls).1|
    ensures
      var outs := Run(cfg, Fresh(), calls).1;
      var opposed := Opposed(Window(GatedObservations(outs[..m]), outs[m].obs), outs[m].obs);
      && (Gated(outs[m]) ==> (outs[m].decision == EquivocationFound <==> opposed))
      && (outs[m].accepted ==> Gated(outs[m]) && !opposed)
  {
    hide Run;
    hide Window;
    hide Opposed;
    hide Apply;
    var outs := Run(cfg, Fresh(), calls).1;
    RunWatched(cfg, Fresh(), calls);
    FreshMemory();
    JudgedAt(cfg, NoMemory(), outs, m);
    JudgedAreGated(cfg, NoMemory(), outs);
    RecallRemembers(cfg, outs[..m]);
    CollectedExactly(GatedObservations(outs[..m]), outs[m].obs);
    ApplyCatches(cfg, CoreOf(Recall(cfg, NoMemory(), outs[..m])), outs[m].obs, outs[m].oldStatus);
  }

  /** Lock-out: while two opposite reports of one observer from one provenance are among the last 49 on a
      peer and epoch, no further report of that observer from that provenance there is accepted, be it a
      direct or a flushed result. */
  lemma ContradictedObserverStaysLockedOut(cfg: Config, calls: seq<Call>, m: nat, i: nat, j: nat)
    requires m < |Run(cfg, Fresh(), calls).1|
    requires
      var outs := Run(cfg, Fresh(), calls).1;
      var obs, window := outs[m].obs, Window(GatedObservations(outs[..m]), outs[m].obs);
      && i < |window| && j < |window|
      && window[i].observerId == window[j].observerId == obs.observerId
      && window[i].provenance == window[j].provenance == obs.provenance
      && window[i].kind != window[j].kind
    ensures !Run(cfg, Fresh(), calls).1[m].accepted
  {
    hide Run;
    hide Window;
    var outs := Run(cfg, Fresh(), calls).1;
    var window := Window(GatedObservations(outs[..m]), outs[m].obs);
    CaughtExactly(cfg, calls, m);
    var k := if window[i].kind != outs[m].obs.kind then i else j;
    assert window[k].kind != outs[m].obs.kind;
  }
}

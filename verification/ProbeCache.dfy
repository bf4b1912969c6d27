/** What the probe cache answers, in terms of the history of probes
    (orchestrator/connectivity.py:237-284). */
module ProbeCache {
  import opened Prelude
  import opened SingleFlight

  /** The refresh of flight f ended with r. */
  ghost predicate EndedWith(history: seq<Action>, f: FutureId, r: ProbeResult) {
    exists k :: 0 <= k < |history| && history[k] == ProbeEnds(f, r)
  }

  ghost predicate PublishedAt(history: seq<Action>, s: Probes, name: string, k: int) {
    0 <= k < |history| && history[k].Publish? && history[k].f < |s.futures| && s.futures[history[k].f].name == name
  }

  /** Action k published a result for this backend, and no later one did. */
  ghost predicate LastPublished(history: seq<Action>, s: Probes, name: string, k: int) {
    && PublishedAt(history, s, name, k)
    && (forall l :: k < l < |history| ==> !PublishedAt(history, s, name, l))
  }

  function ResultOf(fl: Flight): Option<ProbeResult> {
    match fl.refresh
    case Publishing(r) => Some(r)
    case Resolving(r) => Some(r)
    case Complete(r) => Some(r)
    case _ => None
  }

  function Lifetime(r: ProbeResult): real {
    if r.ok then 60.0 else 15.0
  }

  // ---- one action ----

  lemma {:induction false} LastAction(s: Probes, actions: seq<Action>, end: Probes) returns (mid: Probes)
    requires actions != [] && Reaches(s, actions, end)
    ensures Reaches(s, actions[..|actions| - 1], mid) && Enabled(mid, actions[|actions| - 1])
    ensures end == Next(mid, actions[|actions| - 1])
    decreases |actions|
  {
    hide Next;
    hide Enabled;
    var n := |actions| - 1;
    if n == 0 {
      mid := s;
    } else {
      mid := LastAction(Next(s, actions[0]), actions[1..], end);
      assert actions[..n][1..] == actions[1..][..n - 1] && actions[..n][0] == actions[0];
    }
  }

  lemma EnabledInRange(s: Probes, a: Action)
    requires Enabled(s, a)
    ensures |s.futures| <= |Next(s, a).futures|
    ensures !a.AcquireFor? ==> a.f < |s.futures|
  {
  }

  lemma NameStays(s: Probes, a: Action, f: FutureId)
    requires Enabled(s, a) && f < |s.futures|
    ensures f < |Next(s, a).futures| && Next(s, a).futures[f].name == s.futures[f].name
  {
  }

  lemma ResultStep(s: Probes, a: Action, f: FutureId)
    requires Inv(s) && Enabled(s, a) && f < |Next(s, a).futures|
    ensures
      var after := ResultOf(Next(s, a).futures[f]);
      if a.ProbeEnds? && a.f == f then after == Some(a.r)
      else if f < |s.futures| then after == ResultOf(s.futures[f])
      else after == None
    ensures a.ProbeEnds? && a.f == f ==> f < |s.futures| && ResultOf(s.futures[f]) == None
  {
    if !a.AcquireFor? {
      assert FlightOk(s.futures[a.f]);
    }
  }

  lemma PublishStep(s: Probes, a: Action)
    requires Enabled(s, a)
    ensures a.Publish? ==>
      && a.f < |s.futures| && s.futures[a.f].refresh.Publishing?
      && Next(s, a).futures[a.f].refresh == Resolving(s.futures[a.f].refresh.r)
      && Next(s, a).cache ==
           s.cache[s.futures[a.f].name := (a.now + Lifetime(s.futures[a.f].refresh.r), s.futures[a.f].refresh.r)]
    ensures !a.Publish? ==> Next(s, a).cache == s.cache
  {
  }

  predicate Published(fl: Flight) {
    fl.refresh.Resolving? || fl.refresh.Complete?
  }

  lemma PublishedStays(s: Probes, a: Action, f: FutureId)
    requires Inv(s) && Enabled(s, a) && f < |s.futures| && Published(s.futures[f])
    ensures f < |Next(s, a).futures| && Published(Next(s, a).futures[f])
    ensures ResultOf(Next(s, a).futures[f]) == ResultOf(s.futures[f])
  {
    assert FlightOk(s.futures[f]);
  }

  // ---- results ----

  /** Results come from probes that ended with them. */
  ghost predicate ResultsOk(history: seq<Action>, s: Probes) {
    forall f: FutureId, r :: EndedWith(history, f, r) <==> f < |s.futures| && ResultOf(s.futures[f]) == Some(r)
  }

  lemma EndedSnoc(h: seq<Action>, a: Action, f: FutureId, r: ProbeResult)
    ensures EndedWith(h + [a], f, r) <==> EndedWith(h, f, r) || a == ProbeEnds(f, r)
  {
    if EndedWith(h, f, r) {
      var k :| 0 <= k < |h| && h[k] == ProbeEnds(f, r);
      assert (h + [a])[k] == ProbeEnds(f, r);
    }
    assert (h + [a])[|h|] == a;
  }

  lemma ResultsStep(h: seq<Action>, s: Probes, a: Action)
    requires Inv(s) && Enabled(s, a) && ResultsOk(h, s)
    ensures ResultsOk(h + [a], Next(s, a))
  {
    hide Next;
    hide Inv;
    hide EndedWith;
    hide ResultOf;
    EnabledInRange(s, a);
    forall f: FutureId, r
      ensures EndedWith(h + [a], f, r) <==> f < |Next(s, a).futures| && ResultOf(Next(s, a).futures[f]) == Some(r)
    {
      EndedSnoc(h, a, f, r);
      if f < |Next(s, a).futures| {
        ResultStep(s, a, f);
      }
    }
  }

  // ---- the cache ----

  /** The cache holds what this publication put there. */
  ghost predicate EntryOf(a: Action, s: Probes, name: string) {
    && a.Publish? && a.f < |s.futures| && name in s.cache && ResultOf(s.futures[a.f]).Some?
    && s.cache[name] == (a.now + Lifetime(ResultOf(s.futures[a.f]).value), ResultOf(s.futures[a.f]).value)
  }

  ghost predicate Fresh(history: seq<Action>, s: Probes) {
    forall name, k :: LastPublished(history, s, name, k) ==> EntryOf(history[k], s, name)
  }

  ghost predicate Backed(history: seq<Action>, s: Probes) {
    forall name :: name in s.cache ==> exists k :: LastPublished(history, s, name, k)
  }

  ghost predicate PublishersDone(history: seq<Action>, s: Probes) {
    forall k :: 0 <= k < |history| && history[k].Publish? ==>
      history[k].f < |s.futures| && Published(s.futures[history[k].f])
  }

  lemma PublishersStep(h: seq<Action>, s: Probes, a: Action)
    requires Inv(s) && Enabled(s, a) && PublishersDone(h, s)
    ensures PublishersDone(h + [a], Next(s, a))
  {
    hide Next;
    hide Inv;
    EnabledInRange(s, a);
    PublishStep(s, a);
    var longer := h + [a];
    forall k | 0 <= k < |longer| && longer[k].Publish?
      ensures longer[k].f < |Next(s, a).futures| && Published(Next(s, a).futures[longer[k].f])
    {
      if k < |h| {
        assert longer[k] == h[k];
        PublishedStays(s, a, h[k].f);
      }
    }
  }

  lemma PublishedSnoc(h: seq<Action>, s: Probes, a: Action, name: string, k: int)
    requires Enabled(s, a) && PublishersDone(h, s)
    ensures PublishedAt(h + [a], Next(s, a), name, k) <==>
      PublishedAt(h, s, name, k) || (k == |h| && a.Publish? && a.f < |s.futures| && s.futures[a.f].name == name)
  {
    hide Next;
    EnabledInRange(s, a);
    var longer := h + [a];
    assert 0 <= k < |h| ==> longer[k] == h[k];
    if 0 <= k < |longer| && longer[k].Publish? && longer[k].f < |s.futures| {
      NameStays(s, a, longer[k].f);
    }
  }

  /** The last publication after one more action. */
  lemma LastSnoc(h: seq<Action>, s: Probes, a: Action, name: string, k: int)
    requires Enabled(s, a) && PublishersDone(h, s)
    ensures
      var here := a.Publish? && a.f < |s.futures| && s.futures[a.f].name == name;
      LastPublished(h + [a], Next(s, a), name, k) <==> if here then k == |h| else LastPublished(h, s, name, k)
  {
    hide Next;
    hide PublishersDone;
    var longer, s1 := h + [a], Next(s, a);
    forall l: int
      ensures PublishedAt(longer, s1, name, l) <==>
        PublishedAt(h, s, name, l) || (l == |h| && a.Publish? && a.f < |s.futures| && s.futures[a.f].name == name)
    {
      PublishedSnoc(h, s, a, name, l);
    }
    assert PublishedAt(longer, s1, name, |h|) <==> a.Publish? && a.f < |s.futures| && s.futures[a.f].name == name;
    if LastPublished(longer, s1, name, k) && k < |h| {
      assert !PublishedAt(longer, s1, name, |h|);
      assert forall l :: k < l < |h| ==> !PublishedAt(longer, s1, name, l);
    }
    if LastPublished(h, s, name, k) {
      assert PublishedAt(longer, s1, name, k);
      assert forall l :: k < l < |h| ==> !PublishedAt(h, s, name, l);
    }
  }

  lemma FreshStep(h: seq<Action>, s: Probes, a: Action)
    requires Inv(s) && Enabled(s, a) && PublishersDone(h, s) && Fresh(h, s)
    ensures Fresh(h + [a], Next(s, a))
  {
    hide Next;
    hide Inv;
    hide Lifetime;
    EnabledInRange(s, a);
    PublishStep(s, a);
    var longer, s1 := h + [a], Next(s, a);
    forall name: string, k: int | LastPublished(longer, s1, name, k)
      ensures EntryOf(longer[k], s1, name)
    {
      LastSnoc(h, s, a, name, k);
      if k < |h| {
        assert longer[k] == h[k];
        PublishedStays(s, a, h[k].f);
        assert EntryOf(h[k], s, name);
      }
    }
  }

  lemma BackedStep(h: seq<Action>, s: Probes, a: Action)
    requires Enabled(s, a) && PublishersDone(h, s) && Backed(h, s)
    ensures Backed(h + [a], Next(s, a))
  {
    hide Next;
    hide LastPublished;
    hide PublishersDone;
    EnabledInRange(s, a);
    PublishStep(s, a);
    forall name: string | name in Next(s, a).cache
      ensures exists k :: LastPublished(h + [a], Next(s, a), name, k)
    {
      if a.Publish? && s.futures[a.f].name == name {
        LastSnoc(h, s, a, name, |h|);
      } else {
        var k :| LastPublished(h, s, name, k);
        LastSnoc(h, s, a, name, k);
      }
    }
  }

  ghost predicate Explained(history: seq<Action>, s: Probes) {
    ResultsOk(history, s) && PublishersDone(history, s) && Fresh(history, s) && Backed(history, s)
  }

  lemma NothingYet()
    ensures Explained([], Initial())
  {
  }

  lemma {:induction false} HistoryExplains(history: seq<Action>, s: Probes)
    requires Reaches(Initial(), history, s)
    ensures Explained(history, s)
    decreases |history|
  {
    hide Next;
    hide Enabled;
    hide Inv;
    hide ResultsOk;
    hide PublishersDone;
    hide Fresh;
    hide Backed;
    if history == [] {
      NothingYet();
    } else {
      var n := |history| - 1;
      var mid := LastAction(Initial(), history, s);
      RunKeepsInv0(history[..n], mid);
      HistoryExplains(history[..n], mid);
      ResultsStep(history[..n], mid, history[n]);
      PublishersStep(history[..n], mid, history[n]);
      FreshStep(history[..n], mid, history[n]);
      BackedStep(history[..n], mid, history[n]);
      assert history == history[..n] + [history[n]];
    }
  }

  lemma RunKeepsInv0(history: seq<Action>, s: Probes)
    requires Reaches(Initial(), history, s)
    ensures Inv(s)
  {
    RunKeepsInv(Initial(), history, s);
  }

  /** This publication still answers: its refresh ended with r, less than 60 seconds ago, or 15 when r is
      a failure. */
  ghost predicate Answers(history: seq<Action>, s: Probes, name: string, now: real, r: ProbeResult, k: int) {
    && LastPublished(history, s, name, k) && EndedWith(history, history[k].f, r)
    && now < history[k].now + if r.ok then 60.0 else 15.0
  }

  /** What a caller is answered from the cache, over any history: exactly the result with which the probe
      of the last published refresh of that backend ended, and exactly while it is less than 60 seconds
      old, or 15 when it was a failure. */
  lemma CachedAnswersAreExact(history: seq<Action>, s: Probes, name: string, now: real, r: ProbeResult)
    requires Reaches(Initial(), history, s)
    ensures Acquire(s, name, now).1 == Cached(r) <==> exists k :: Answers(history, s, name, now, r, k)
  {
    hide EndedWith;
    hide ResultOf;
    HistoryExplains(history, s);
    if Acquire(s, name, now).1 == Cached(r) {
      var k :| LastPublished(history, s, name, k);
      assert EntryOf(history[k], s, name);
      assert EndedWith(history, history[k].f, r);
      assert Answers(history, s, name, now, r, k);
    }
    if k :| Answers(history, s, name, now, r, k) {
      assert EntryOf(history[k], s, name);
      assert ResultOf(s.futures[history[k].f]) == Some(r);
    }
  }
}

/** The witness gates of the decision pipeline: independent quorum, reputation-weighted quorum and
    Sybil correlation (orchestrator/witness_quorum.py,
    orchestrator/state_transition_manager.py:468-557). */
module WitnessGates {
  import opened Prelude
  import opened Observations
  import opened KBuckets

  // ---- independent quorum ----

  function ObserverSet(ws: seq<Observation>): set<string> {
    set w | w in ws :: w.observerId
  }

  function BucketSet(bucketOf: string -> string, ws: seq<Observation>): set<string> {
    set w | w in ws :: bucketOf(w.provenance)
  }

  predicate HasQuorum(bucketOf: string -> string, obs: Observation) {
    && |obs.witnesses| >= 2
    && |ObserverSet(obs.witnesses)| >= 2
    && |BucketSet(bucketOf, obs.witnesses)| >= 2
  }

  // ---- weighted quorum ----

  /** The heaviest weight seen in each provenance bucket, with the dictionary's insertion order. */
  datatype Tally = Tally(order: seq<string>, best: map<string, real>)

  function MaxReal(a: real, b: real): real {
    if a >= b then a else b
  }

  function AddVote(t: Tally, bucket: string, weight: real): Tally {
    if bucket in t.best
    then t.(best := t.best[bucket := MaxReal(t.best[bucket], weight)])
    else Tally(t.order + [bucket], t.best[bucket := MaxReal(0.0, weight)])
  }

  function TallyVotes(bucketOf: string -> string, weightOf: string -> real, ws: seq<Observation>): (t: Tally)
    ensures forall b :: b in t.order <==> b in t.best
  {
    if ws == [] then Tally([], map[])
    else
      var w := ws[|ws| - 1];
      AddVote(TallyVotes(bucketOf, weightOf, ws[..|ws| - 1]), bucketOf(w.provenance), weightOf(w.observerId))
  }

  function SumBest(order: seq<string>, best: map<string, real>): real
    requires forall b :: b in order ==> b in best
  {
    if order == [] then 0.0 else SumBest(order[..|order| - 1], best) + best[order[|order| - 1]]
  }

  function Score(bucketOf: string -> string, weightOf: string -> real, ws: seq<Observation>): real {
    var t := TallyVotes(bucketOf, weightOf, ws);
    SumBest(t.order, t.best)
  }

  /** Distinct observers in order of first appearance. */
  function ObserversOf(ws: seq<Observation>): seq<string> {
    if ws == [] then []
    else
      var init := ObserversOf(ws[..|ws| - 1]);
      var id := ws[|ws| - 1].observerId;
      if id in init then init else init + [id]
  }

  /** Each observer of a witness is listed once. */
  lemma {:induction false} ObserversAreDistinct(ws: seq<Observation>)
    ensures NoDup(ObserversOf(ws))
    ensures forall id :: id in ObserversOf(ws) <==> exists i :: 0 <= i < |ws| && ws[i].observerId == id
  {
    if ws != [] {
      var n := |ws| - 1;
      ObserversAreDistinct(ws[..n]);
      assert forall i :: 0 <= i < n ==> ws[..n][i] == ws[i];
      forall id
        ensures id in ObserversOf(ws) <==> exists i :: 0 <= i < |ws| && ws[i].observerId == id
      {
        if i :| 0 <= i < |ws| && ws[i].observerId == id {
          assert i < n ==> ws[..n][i].observerId == id;
        }
        if id in ObserversOf(ws[..n]) {
          var i :| 0 <= i < n && ws[..n][i].observerId == id;
          assert ws[i].observerId == id;
        }
      }
    }
  }

  /** Bucket b has a witness whose weight is at least v. */
  ghost predicate Backed(bucketOf: string -> string, weightOf: string -> real, ws: seq<Observation>, b: string, v: real) {
    exists i :: 0 <= i < |ws| && bucketOf(ws[i].provenance) == b && weightOf(ws[i].observerId) >= v
  }

  lemma {:induction false} TallyListsBuckets(bucketOf: string -> string, weightOf: string -> real, ws: seq<Observation>)
    ensures NoDup(TallyVotes(bucketOf, weightOf, ws).order)
    ensures forall b :: b in TallyVotes(bucketOf, weightOf, ws).order <==> b in BucketSet(bucketOf, ws)
  {
    if ws != [] {
      var n := |ws| - 1;
      TallyListsBuckets(bucketOf, weightOf, ws[..n]);
      assert ws == ws[..n] + [ws[n]];
      var t0 := TallyVotes(bucketOf, weightOf, ws[..n]);
      var bucket := bucketOf(ws[n].provenance);
      assert BucketSet(bucketOf, ws) == BucketSet(bucketOf, ws[..n]) + {bucket};
      if bucket !in t0.order {
        NoDupSnoc(t0.order, bucket);
      }
    }
  }

  lemma {:induction false} TallyIsBacked(bucketOf: string -> string, weightOf: string -> real, ws: seq<Observation>, b: string)
    requires b in TallyVotes(bucketOf, weightOf, ws).best
    ensures
      var v := TallyVotes(bucketOf, weightOf, ws).best[b];
      v >= 0.0 && (v > 0.0 ==> Backed(bucketOf, weightOf, ws, b, v))
  {
    var n := |ws| - 1;
    var front, w := ws[..n], ws[n];
    var t0 := TallyVotes(bucketOf, weightOf, front);
    var v := TallyVotes(bucketOf, weightOf, ws).best[b];
    if b in t0.best {
      TallyIsBacked(bucketOf, weightOf, front, b);
      if t0.best[b] == v > 0.0 {
        var i :| 0 <= i < |front| && bucketOf(front[i].provenance) == b && weightOf(front[i].observerId) >= v;
        assert ws[i] == front[i];
      }
    }
    if v > 0.0 && !(b in t0.best && t0.best[b] == v) {
      assert bucketOf(ws[n].provenance) == b && weightOf(ws[n].observerId) >= v;
    }
  }

  lemma {:induction false} TallyCovers(bucketOf: string -> string, weightOf: string -> real, ws: seq<Observation>, i: nat)
    requires i < |ws|
    ensures
      var t := TallyVotes(bucketOf, weightOf, ws);
      bucketOf(ws[i].provenance) in t.best && weightOf(ws[i].observerId) <= t.best[bucketOf(ws[i].provenance)]
  {
    var n := |ws| - 1;
    if i < n {
      TallyCovers(bucketOf, weightOf, ws[..n], i);
    }
  }

  /** The tally lists each provenance bucket once and credits it with its heaviest witness. */
  lemma TallyIsBestPerBucket(bucketOf: string -> string, weightOf: string -> real, ws: seq<Observation>)
    ensures
      var t := TallyVotes(bucketOf, weightOf, ws);
      && NoDup(t.order)
      && (forall b :: b in t.order <==> b in BucketSet(bucketOf, ws))
      && (forall b :: b in t.best ==> t.best[b] >= 0.0)
      && (forall b :: b in t.best && t.best[b] > 0.0 ==> Backed(bucketOf, weightOf, ws, b, t.best[b]))
      && (forall i :: 0 <= i < |ws| ==>
            bucketOf(ws[i].provenance) in t.best && weightOf(ws[i].observerId) <= t.best[bucketOf(ws[i].provenance)])
  {
    TallyListsBuckets(bucketOf, weightOf, ws);
    forall b | b in TallyVotes(bucketOf, weightOf, ws).best {
      TallyIsBacked(bucketOf, weightOf, ws, b);
    }
    forall i | 0 <= i < |ws| {
      TallyCovers(bucketOf, weightOf, ws, i);
    }
  }

  lemma {:induction false} SumBounded(order: seq<string>, best: map<string, real>)
    requires forall b :: b in order ==> b in best && best[b] <= 1.0
    ensures SumBest(order, best) <= |order| as real
  {
    if order != [] {
      SumBounded(order[..|order| - 1], best);
    }
  }

  lemma {:induction false} SumAboveZero(order: seq<string>, best: map<string, real>) returns (i: nat)
    requires forall b :: b in order ==> b in best
    requires SumBest(order, best) > 0.0
    ensures i < |order| && best[order[i]] > 0.0
  {
    var n := |order| - 1;
    if best[order[n]] > 0.0 {
      i := n;
    } else {
      i := SumAboveZero(order[..n], best);
    }
  }

  lemma {:induction false} SumAboveOne(order: seq<string>, best: map<string, real>) returns (i: nat, j: nat)
    requires forall b :: b in order ==> b in best && best[b] <= 1.0
    requires SumBest(order, best) > 1.0
    ensures i < j < |order| && best[order[i]] > 0.0 && best[order[j]] > 0.0
  {
    var n := |order| - 1;
    if best[order[n]] > 0.0 {
      j := n;
      i := SumAboveZero(order[..n], best);
    } else {
      i, j := SumAboveOne(order[..n], best);
    }
  }

  /** With no weight above one, the score never exceeds the number of distinct provenance buckets,
      however many witnesses there are. */
  lemma ScoreBoundedByBuckets(bucketOf: string -> string, weightOf: string -> real, ws: seq<Observation>)
    requires forall id :: weightOf(id) <= 1.0
    ensures Score(bucketOf, weightOf, ws) <= |BucketSet(bucketOf, ws)| as real
  {
    TallyIsBestPerBucket(bucketOf, weightOf, ws);
    var t := TallyVotes(bucketOf, weightOf, ws);
    BestAtMostOne(bucketOf, weightOf, ws);
    SumBounded(t.order, t.best);
    NoDupSize(t.order, BucketSet(bucketOf, ws));
  }

  lemma BestAtMostOne(bucketOf: string -> string, weightOf: string -> real, ws: seq<Observation>)
    requires forall id :: weightOf(id) <= 1.0
    ensures forall b :: b in TallyVotes(bucketOf, weightOf, ws).best ==> TallyVotes(bucketOf, weightOf, ws).best[b] <= 1.0
  {
    TallyIsBestPerBucket(bucketOf, weightOf, ws);
    var t := TallyVotes(bucketOf, weightOf, ws);
    forall b | b in t.best
      ensures t.best[b] <= 1.0
    {
      if t.best[b] > 0.0 {
        assert Backed(bucketOf, weightOf, ws, b, t.best[b]);
      }
    }
  }

  /** Two witnesses of positive weight in two different provenance buckets. */
  ghost predicate TwoBackedBuckets(bucketOf: string -> string, weightOf: string -> real, ws: seq<Observation>) {
    exists i, j :: 0 <= i < |ws| && 0 <= j < |ws|
      && bucketOf(ws[i].provenance) != bucketOf(ws[j].provenance)
      && weightOf(ws[i].observerId) > 0.0 && weightOf(ws[j].observerId) > 0.0
  }

  /** A score above one needs weight in two different buckets. */
  lemma ScoreNeedsTwoBuckets(bucketOf: string -> string, weightOf: string -> real, ws: seq<Observation>)
    requires forall id :: weightOf(id) <= 1.0
    requires Score(bucketOf, weightOf, ws) > 1.0
    ensures TwoBackedBuckets(bucketOf, weightOf, ws)
  {
    hide TallyVotes;
    hide SumBest;
    TallyIsBestPerBucket(bucketOf, weightOf, ws);
    BestAtMostOne(bucketOf, weightOf, ws);
    var t := TallyVotes(bucketOf, weightOf, ws);
    var i, j := SumAboveOne(t.order, t.best);
    var a :| 0 <= a < |ws| && bucketOf(ws[a].provenance) == t.order[i] && weightOf(ws[a].observerId) >= t.best[t.order[i]];
    var b :| 0 <= b < |ws| && bucketOf(ws[b].provenance) == t.order[j] && weightOf(ws[b].observerId) >= t.best[t.order[j]];
    assert t.order[i] != t.order[j];
  }

  // ---- Sybil correlation ----

  datatype SybilSignal = Strong | Weak | NoSignal

  function WitnessPeers(ws: seq<Observation>): seq<string> {
    seq(|ws|, i requires 0 <= i < |ws| => ws[i].peerId)
  }

  /** The peer paired with each of the ids that it is correlated with. */
  function PeerPairs(space: Space, bits: int, peer: string, ids: seq<string>): seq<(string, string)> {
    if ids == [] then []
    else
      var init := PeerPairs(space, bits, peer, ids[..|ids| - 1]);
      var id := ids[|ids| - 1];
      if IsCorrelated(space, peer, id, bits) then init + [(peer, id)] else init
  }

  /** The correlated pairs among witnesses whose first index is below n. */
  function RingPairs(space: Space, bits: int, ids: seq<string>, n: nat): seq<(string, string)>
    requires n <= |ids|
  {
    if n == 0 then []
    else RingPairs(space, bits, ids, n - 1) + PeerPairs(space, bits, ids[n - 1], ids[n..])
  }

  function CorrelatedPairs(space: Space, bits: int, peer: string, ids: seq<string>): seq<(string, string)> {
    PeerPairs(space, bits, peer, ids) + RingPairs(space, bits, ids, |ids|)
  }

  function Overlap(peers: seq<string>, ids: seq<string>): seq<string> {
    if peers == [] then []
    else
      var init := Overlap(peers[..|peers| - 1], ids);
      if peers[|peers| - 1] in ids then init + [peers[|peers| - 1]] else init
  }

  function Signal(space: Space, bits: int, table: Table, obs: Observation): SybilSignal {
    var ids := WitnessPeers(obs.witnesses);
    var pairs := CorrelatedPairs(space, bits, obs.peerId, ids);
    var overlap := Overlap(PeersInBucket(table, BucketFor(space, obs.peerId)), ids);
    if |pairs| >= 2 || |overlap| >= 2 then Strong
    else if pairs != [] || overlap != [] then Weak
    else NoSignal
  }

  function Matches(space: Space, bits: int, peer: string, ids: seq<string>): set<int> {
    set i | 0 <= i < |ids| && IsCorrelated(space, peer, ids[i], bits)
  }

  /** Some id at an index below |ids| makes p a correlated pair with the peer. */
  ghost predicate PeerPair(space: Space, bits: int, peer: string, ids: seq<string>, p: (string, string)) {
    p.0 == peer && exists i :: 0 <= i < |ids| && ids[i] == p.1 && IsCorrelated(space, peer, ids[i], bits)
  }

  lemma {:induction false} PeerPairsCount(space: Space, bits: int, peer: string, ids: seq<string>)
    ensures |PeerPairs(space, bits, peer, ids)| == |Matches(space, bits, peer, ids)|
  {
    hide IsCorrelated;
    if ids == [] {
      assert Matches(space, bits, peer, ids) == {};
    } else {
      var n := |ids| - 1;
      PeerPairsCount(space, bits, peer, ids[..n]);
      if IsCorrelated(space, peer, ids[n], bits) {
        assert Matches(space, bits, peer, ids) == Matches(space, bits, peer, ids[..n]) + {n};
      } else {
        assert Matches(space, bits, peer, ids) == Matches(space, bits, peer, ids[..n]);
      }
    }
  }

  lemma {:induction false} PeerPairsExact(space: Space, bits: int, peer: string, ids: seq<string>, p: (string, string))
    ensures p in PeerPairs(space, bits, peer, ids) <==> PeerPair(space, bits, peer, ids, p)
  {
    hide IsCorrelated;
    if ids != [] {
      var n := |ids| - 1;
      var front := ids[..n];
      PeerPairsExact(space, bits, peer, front, p);
      if PeerPair(space, bits, peer, front, p) {
        var i :| 0 <= i < |front| && front[i] == p.1 && IsCorrelated(space, peer, front[i], bits);
        assert ids[i] == p.1;
      }
      if PeerPair(space, bits, peer, ids, p) {
        var i :| 0 <= i < |ids| && ids[i] == p.1 && IsCorrelated(space, peer, ids[i], bits);
        assert i < n ==> front[i] == p.1;
      }
    }
  }

  ghost predicate RingPair(space: Space, bits: int, ids: seq<string>, n: nat, p: (string, string)) {
    exists i, j :: 0 <= i < n && i < j < |ids| && p == (ids[i], ids[j]) && IsCorrelated(space, ids[i], ids[j], bits)
  }

  lemma {:induction false} RingPairsExact(space: Space, bits: int, ids: seq<string>, n: nat, p: (string, string))
    requires n <= |ids|
    ensures p in RingPairs(space, bits, ids, n) <==> RingPair(space, bits, ids, n, p)
  {
    if n > 0 {
      RingPairsExact(space, bits, ids, n - 1, p);
      var rest := ids[n..];
      PeerPairsExact(space, bits, ids[n - 1], rest, p);
      if p in PeerPairs(space, bits, ids[n - 1], rest) {
        var k :| 0 <= k < |rest| && rest[k] == p.1 && IsCorrelated(space, ids[n - 1], rest[k], bits);
        assert rest[k] == ids[n + k];
        assert p == (ids[n - 1], ids[n + k]);
      }
      if RingPair(space, bits, ids, n, p) {
        var i, j :| 0 <= i < n && i < j < |ids| && p == (ids[i], ids[j]) && IsCorrelated(space, ids[i], ids[j], bits);
        if i == n - 1 {
          assert rest[j - n] == ids[j];
        } else {
          assert RingPair(space, bits, ids, n - 1, p);
        }
      }
    }
  }

  /** The two loops list exactly the correlated pairs of the peer with a witness and of two
      witnesses, and by the shared-prefix law those are the pairs of ids whose keys agree above the
      proximity bits. */
  lemma CorrelatedPairsExact(space: Space, bits: int, peer: string, ids: seq<string>, p: (string, string))
    ensures p in CorrelatedPairs(space, bits, peer, ids) <==>
      PeerPair(space, bits, peer, ids, p) || RingPair(space, bits, ids, |ids|, p)
  {
    hide IsCorrelated;
    PeerPairsExact(space, bits, peer, ids, p);
    RingPairsExact(space, bits, ids, |ids|, p);
  }
}

/** What the Sybil signal says, in terms of keys, positions and stored peers
    (orchestrator/state_transition_manager.py:513-557). */
module SybilSignals {
  import opened Prelude
  import opened Observations
  import opened XorDistance
  import opened KBuckets
  import opened WitnessGates

  /** Position 0 is the observed peer, position i the i-th witness. */
  function IdAt(obs: Observation, i: int): string
    requires 0 <= i <= |obs.witnesses|
  {
    if i == 0 then obs.peerId else obs.witnesses[i - 1].peerId
  }

  /** The pairs of positions whose keys have the same bits from `bits` up. */
  ghost function ClosePairs(space: Space, bits: int, obs: Observation): set<(int, int)> {
    set i: int, j: int |
      0 <= i <= |obs.witnesses| && 0 <= j <= |obs.witnesses| && i < j
      && AgreeFrom(space.keyOf(IdAt(obs, i)), space.keyOf(IdAt(obs, j)), bits) :: (i, j)
  }

  /** The entries stored in the observed peer's distance class. */
  function ClassEntries(space: Space, table: Table, obs: Observation): Bucket {
    var class_ := BitLength(Xor(space.keyOf(obs.peerId), space.keyOf(space.localId)));
    if class_ in table then table[class_] else []
  }

  /** The positions there that hold the peer id of a witness. */
  ghost function StoredWitnesses(space: Space, table: Table, obs: Observation): set<int> {
    var entries := ClassEntries(space, table, obs);
    set n: int | 0 <= n < |entries| && exists i :: 0 <= i < |obs.witnesses| && obs.witnesses[i].peerId == entries[n].0
  }

  // ---- counting the loops' results ----

  /** Correlated pairs of list positions, the first below n. */
  function RingMatches(space: Space, bits: int, ids: seq<string>, n: int): set<(int, int)> {
    set i: int, j: int | 0 <= i < n && 0 <= j < |ids| && i < |ids| && i < j && IsCorrelated(space, ids[i], ids[j], bits) :: (i, j)
  }

  /** The list positions correlated with one peer, shifted by `offset` and paired with `first`. */
  function Row(space: Space, bits: int, peer: string, ids: seq<string>, first: int, offset: int): set<(int, int)> {
    set k: int | 0 <= k < |ids| && IsCorrelated(space, peer, ids[k], bits) :: (first, k + offset)
  }

  lemma {:induction false} RowCount(space: Space, bits: int, peer: string, ids: seq<string>, first: int, offset: int)
    ensures |PeerPairs(space, bits, peer, ids)| == |Row(space, bits, peer, ids, first, offset)|
  {
    hide IsCorrelated;
    if ids == [] {
      assert Row(space, bits, peer, ids, first, offset) == {};
    } else {
      var n := |ids| - 1;
      RowCount(space, bits, peer, ids[..n], first, offset);
      RowStep(space, bits, peer, ids, first, offset);
    }
  }

  lemma RowStep(space: Space, bits: int, peer: string, ids: seq<string>, first: int, offset: int)
    requires ids != []
    ensures
      var n := |ids| - 1;
      var front := Row(space, bits, peer, ids[..n], first, offset);
      && (first, n + offset) !in front
      && Row(space, bits, peer, ids, first, offset)
           == front + if IsCorrelated(space, peer, ids[n], bits) then {(first, n + offset)} else {}
  {
    hide IsCorrelated;
    var n := |ids| - 1;
    var front := Row(space, bits, peer, ids[..n], first, offset);
    var all := Row(space, bits, peer, ids, first, offset);
    forall p: (int, int)
      ensures p in all <==> p in front || (IsCorrelated(space, peer, ids[n], bits) && p == (first, n + offset))
    {
      if p in front {
        var k: int :| 0 <= k < n && IsCorrelated(space, peer, ids[..n][k], bits) && p == (first, k + offset);
        assert ids[k] == ids[..n][k];
      }
      if p in all {
        var k: int :| 0 <= k < |ids| && IsCorrelated(space, peer, ids[k], bits) && p == (first, k + offset);
        assert k < n ==> ids[k] == ids[..n][k];
      }
    }
  }

  lemma RingMatchesStep(space: Space, bits: int, ids: seq<string>, n: nat)
    requires 0 < n <= |ids|
    ensures
      var row := Row(space, bits, ids[n - 1], ids[n..], n - 1, n);
      && RingMatches(space, bits, ids, n) == RingMatches(space, bits, ids, n - 1) + row
      && RingMatches(space, bits, ids, n - 1) !! row
  {
    hide IsCorrelated;
    var rest := ids[n..];
    var row := Row(space, bits, ids[n - 1], rest, n - 1, n);
    forall i: int, j: int
      ensures (i, j) in RingMatches(space, bits, ids, n) <==> (i, j) in RingMatches(space, bits, ids, n - 1) || (i, j) in row
    {
      if i == n - 1 && n <= j < |ids| {
        assert rest[j - n] == ids[j];
        assert (n - 1, (j - n) + n) in row <==> IsCorrelated(space, ids[n - 1], ids[j], bits);
      }
    }
    assert RingMatches(space, bits, ids, n) == RingMatches(space, bits, ids, n - 1) + row;
  }

  lemma NoRing(space: Space, bits: int, ids: seq<string>)
    ensures RingMatches(space, bits, ids, 0) == {}
  {
  }

  lemma {:induction false} RingPairsCount(space: Space, bits: int, ids: seq<string>, n: nat)
    requires n <= |ids|
    ensures |RingPairs(space, bits, ids, n)| == |RingMatches(space, bits, ids, n)|
  {
    hide IsCorrelated;
    hide PeerPairs;
    hide RingMatches;
    hide Row;
    if n == 0 {
      NoRing(space, bits, ids);
    } else {
      RingPairsCount(space, bits, ids, n - 1);
      RingMatchesStep(space, bits, ids, n);
      RowCount(space, bits, ids[n - 1], ids[n..], n - 1, n);
    }
  }

  function BothUp(m: set<(int, int)>): set<(int, int)> {
    set p: (int, int) | p in m :: (p.0 + 1, p.1 + 1)
  }

  lemma {:induction false} BothUpSize(m: set<(int, int)>)
    ensures |BothUp(m)| == |m|
    decreases |m|
  {
    if m == {} {
      assert BothUp(m) == {};
    } else {
      var x: (int, int) :| x in m;
      BothUpSize(m - {x});
      assert BothUp(m) == BothUp(m - {x}) + {(x.0 + 1, x.1 + 1)};
      assert (x.0 + 1, x.1 + 1) !in BothUp(m - {x});
    }
  }

  lemma CloseMember(space: Space, bits: int, obs: Observation, i: int, j: int)
    ensures
      var ids := WitnessPeers(obs.witnesses);
      var first := Row(space, bits, obs.peerId, ids, 0, 1);
      var ring := BothUp(RingMatches(space, bits, ids, |ids|));
      (i, j) in ClosePairs(space, bits, obs) <==> (i, j) in first || (i, j) in ring
  {
    hide Correlated;
    hide AgreeFrom;
    var ids := WitnessPeers(obs.witnesses);
    var matches := RingMatches(space, bits, ids, |ids|);
    var first, ring := Row(space, bits, obs.peerId, ids, 0, 1), BothUp(matches);
    if 0 <= i < j <= |ids| {
      CorrelatedAgree(space.keyOf(IdAt(obs, i)), space.keyOf(IdAt(obs, j)), bits);
      if i == 0 {
        assert (0, (j - 1) + 1) in first <==> IsCorrelated(space, obs.peerId, ids[j - 1], bits);
      } else {
        assert (i - 1, j - 1) in matches <==> IsCorrelated(space, ids[i - 1], ids[j - 1], bits);
        assert (i - 1, j - 1) in matches ==> ((i - 1) + 1, (j - 1) + 1) in ring;
      }
    }
  }

  lemma CorrelatedPairsCount(space: Space, bits: int, obs: Observation)
    ensures |CorrelatedPairs(space, bits, obs.peerId, WitnessPeers(obs.witnesses))| == |ClosePairs(space, bits, obs)|
  {
    var ids := WitnessPeers(obs.witnesses);
    var first := Row(space, bits, obs.peerId, ids, 0, 1);
    var ring := BothUp(RingMatches(space, bits, ids, |ids|));
    assert first !! ring by {
      assert forall p: (int, int) :: p in ring ==> p.0 > 0;
    }
    hide IsCorrelated;
    hide PeerPairs;
    hide RingPairs;
    hide RingMatches;
    hide Row;
    hide BothUp;
    RowCount(space, bits, obs.peerId, ids, 0, 1);
    RingPairsCount(space, bits, ids, |ids|);
    BothUpSize(RingMatches(space, bits, ids, |ids|));
    CloseIsUnion(space, bits, obs, first, ring);
  }

  lemma CloseIsUnion(space: Space, bits: int, obs: Observation, first: set<(int, int)>, ring: set<(int, int)>)
    requires first == Row(space, bits, obs.peerId, WitnessPeers(obs.witnesses), 0, 1)
    requires ring == BothUp(RingMatches(space, bits, WitnessPeers(obs.witnesses), |obs.witnesses|))
    ensures ClosePairs(space, bits, obs) == first + ring
  {
    hide ClosePairs;
    hide Row;
    hide RingMatches;
    hide BothUp;
    forall p: (int, int)
      ensures p in ClosePairs(space, bits, obs) <==> p in first || p in ring
    {
      CloseMember(space, bits, obs, p.0, p.1);
      assert p == (p.0, p.1);
    }
  }

  function OverlapAt(peers: seq<string>, ids: seq<string>): set<int> {
    set n: int | 0 <= n < |peers| && peers[n] in ids
  }

  lemma {:induction false} OverlapCount(peers: seq<string>, ids: seq<string>)
    ensures |Overlap(peers, ids)| == |OverlapAt(peers, ids)|
  {
    if peers == [] {
      assert OverlapAt(peers, ids) == {};
    } else {
      var n := |peers| - 1;
      OverlapCount(peers[..n], ids);
      assert OverlapAt(peers, ids) == OverlapAt(peers[..n], ids) + if peers[n] in ids then {n} else {};
    }
  }

  lemma StoredAreOverlap(space: Space, table: Table, obs: Observation)
    ensures
      StoredWitnesses(space, table, obs)
        == OverlapAt(PeersInBucket(table, BucketFor(space, obs.peerId)), WitnessPeers(obs.witnesses))
  {
    var ids := WitnessPeers(obs.witnesses);
    var entries := ClassEntries(space, table, obs);
    var peers := PeersInBucket(table, BucketFor(space, obs.peerId));
    assert |peers| == |entries| && forall n :: 0 <= n < |entries| ==> peers[n] == entries[n].0;
    forall n: int | 0 <= n < |entries|
      ensures peers[n] in ids <==> exists i :: 0 <= i < |obs.witnesses| && obs.witnesses[i].peerId == entries[n].0
    {
      if peers[n] in ids {
        var i :| 0 <= i < |ids| && ids[i] == peers[n];
        assert obs.witnesses[i].peerId == entries[n].0;
      }
      if i :| 0 <= i < |obs.witnesses| && obs.witnesses[i].peerId == entries[n].0 {
        assert ids[i] == peers[n];
      }
    }
  }

  /** The signal, exactly. It is there if and only if two of the observed peer and its witnesses, at
      different positions, have keys with the same bits from `bits` up, or a witness is stored in the
      observed peer's distance class; it is strong if and only if there are at least two such pairs of
      positions or at least two such stored entries. */
  lemma SignalExactly(space: Space, bits: int, table: Table, obs: Observation)
    ensures
      var close, stored := ClosePairs(space, bits, obs), StoredWitnesses(space, table, obs);
      && (Signal(space, bits, table, obs) == NoSignal <==> close == {} && stored == {})
      && (Signal(space, bits, table, obs) == Strong <==> |close| >= 2 || |stored| >= 2)
  {
    hide ClosePairs;
    hide StoredWitnesses;
    hide CorrelatedPairs;
    hide Overlap;
    hide OverlapAt;
    CorrelatedPairsCount(space, bits, obs);
    StoredAreOverlap(space, table, obs);
    OverlapCount(PeersInBucket(table, BucketFor(space, obs.peerId)), WitnessPeers(obs.witnesses));
  }
}

/** The k-bucket routing table (orchestrator/distance_bucket.py:82-169). */
module KBuckets {
  import opened Prelude
  import opened XorDistance

  type Bucket = seq<(string, real)>
  type Table = map<nat, Bucket>

  /** How peer ids become keys, and the table's own id and bucket capacity. */
  datatype Space = Space(keyOf: string -> nat, localId: string, k: int)

  function BucketFor(space: Space, peerId: string): nat {
    BitLength(Xor(space.keyOf(peerId), space.keyOf(space.localId)))
  }

  predicate IsCorrelated(space: Space, a: string, b: string, proximityBits: int) {
    Correlated(space.keyOf(a), space.keyOf(b), proximityBits)
  }

  function WithoutPeer(bucket: Bucket, peerId: string): Bucket {
    if bucket == [] then []
    else
      var init := WithoutPeer(bucket[..|bucket| - 1], peerId);
      if bucket[|bucket| - 1].0 == peerId then init else init + [bucket[|bucket| - 1]]
  }

  function Update(space: Space, table: Table, peerId: string, lastSeen: real): Table {
    var index := BucketFor(space, peerId);
    var bucket := if index in table then table[index] else [];
    table[index := LastN(Max(space.k, 0), WithoutPeer(bucket, peerId) + [(peerId, lastSeen)])]
  }

  function PeersIn(bucket: Bucket): seq<string> {
    seq(|bucket|, i requires 0 <= i < |bucket| => bucket[i].0)
  }

  function PeersInBucket(table: Table, index: nat): seq<string> {
    if index in table then PeersIn(table[index]) else []
  }

  // ---- the history view ----

  function UpdateAll(space: Space, history: Bucket): Table {
    if history == [] then map[]
    else
      var last := history[|history| - 1];
      Update(space, UpdateAll(space, history[..|history| - 1]), last.0, last.1)
  }

  /** The part of a history that falls into one distance class. */
  function InClass(space: Space, history: Bucket, index: nat): Bucket {
    if history == [] then []
    else
      var init := InClass(space, history[..|history| - 1], index);
      var last := history[|history| - 1];
      if BucketFor(space, last.0) == index then init + [last] else init
  }

  ghost predicate Mentions(history: Bucket, peerId: string) {
    exists i :: 0 <= i < |history| && history[i].0 == peerId
  }

  /** Each peer's most recent update, in update order: an update survives unless the same peer
      is updated again later. */
  ghost function MostRecent(history: Bucket): Bucket {
    if history == [] then []
    else if Mentions(history[1..], history[0].0) then MostRecent(history[1..])
    else [history[0]] + MostRecent(history[1..])
  }

  lemma {:induction false} WithoutPeerCons(head: (string, real), rest: Bucket, peerId: string)
    ensures WithoutPeer([head] + rest, peerId)
         == (if head.0 == peerId then [] else [head]) + WithoutPeer(rest, peerId)
  {
    var whole := [head] + rest;
    if rest == [] {
      assert whole[..0] == [];
    } else {
      var n := |rest| - 1;
      assert whole[..|whole| - 1] == [head] + rest[..n];
      WithoutPeerCons(head, rest[..n], peerId);
    }
  }

  lemma {:induction false} WithoutPeerAbsent(bucket: Bucket, peerId: string)
    requires !Mentions(bucket, peerId)
    ensures WithoutPeer(bucket, peerId) == bucket
  {
    if bucket != [] {
      var n := |bucket| - 1;
      assert forall i :: 0 <= i < n ==> bucket[..n][i] == bucket[i];
      WithoutPeerAbsent(bucket[..n], peerId);
      assert bucket[n].0 != peerId;
      assert bucket == bucket[..n] + [bucket[n]];
    }
  }

  lemma {:induction false} WithoutPeerForgets(bucket: Bucket, peerId: string)
    ensures |WithoutPeer(bucket, peerId)| <= |bucket|
    ensures !Mentions(WithoutPeer(bucket, peerId), peerId)
  {
    if bucket != [] {
      WithoutPeerForgets(bucket[..|bucket| - 1], peerId);
    }
  }

  lemma {:induction false} MostRecentMentions(history: Bucket, peerId: string)
    ensures Mentions(MostRecent(history), peerId) <==> Mentions(history, peerId)
  {
    if history != [] {
      var rest := history[1..];
      MostRecentMentions(rest, peerId);
      MostRecentMentions(rest, history[0].0);
      assert history == [history[0]] + rest;
      if Mentions(rest, peerId) {
        var i :| 0 <= i < |rest| && rest[i].0 == peerId;
        assert history[i + 1].0 == peerId;
      }
      if !Mentions(rest, history[0].0) {
        var r := MostRecent(rest);
        assert MostRecent(history) == [history[0]] + r;
        if Mentions(r, peerId) {
          var j :| 0 <= j < |r| && r[j].0 == peerId;
          assert MostRecent(history)[j + 1].0 == peerId;
        }
        if history[0].0 == peerId {
          assert MostRecent(history)[0].0 == peerId;
        }
      }
    }
  }

  ghost predicate DistinctPeers(bucket: Bucket) {
    forall i, j :: 0 <= i < j < |bucket| ==> bucket[i].0 != bucket[j].0
  }

  lemma {:induction false} MostRecentDistinct(history: Bucket)
    ensures DistinctPeers(MostRecent(history))
  {
    if history != [] {
      MostRecentDistinct(history[1..]);
      MostRecentMentions(history[1..], history[0].0);
    }
  }

  lemma NothingMentioned(peerId: string)
    ensures !Mentions([], peerId)
  {
  }

  lemma MentionsSnoc(rest: Bucket, last: (string, real), peerId: string)
    ensures Mentions(rest + [last], peerId) <==> Mentions(rest, peerId) || last.0 == peerId
  {
    var longer := rest + [last];
    if i :| 0 <= i < |rest| && rest[i].0 == peerId {
      assert longer[i].0 == peerId;
    }
    if last.0 == peerId {
      assert longer[|rest|].0 == peerId;
    }
  }

  /** One more update moves its peer to the end. */
  lemma {:induction false} MostRecentSnoc(history: Bucket, last: (string, real))
    ensures MostRecent(history + [last]) == WithoutPeer(MostRecent(history), last.0) + [last]
  {
    hide Mentions;
    if history == [] {
      NothingMentioned(last.0);
      assert history + [last] == [last];
      assert MostRecent([last]) == [last] + MostRecent([]);
    } else {
      var head, rest := history[0], history[1..];
      var whole := history + [last];
      assert whole[1..] == rest + [last];
      MostRecentSnoc(rest, last);
      MentionsSnoc(rest, last, head.0);
      if !Mentions(rest, head.0) {
        WithoutPeerCons(head, MostRecent(rest), last.0);
      }
    }
  }

  /** Capping before or after one more update makes no difference. */
  lemma {:induction false} CapCommutes(k: nat, all: Bucket, peerId: string, lastSeen: real)
    requires DistinctPeers(all)
    ensures LastN(k, WithoutPeer(LastN(k, all), peerId) + [(peerId, lastSeen)])
         == LastN(k, WithoutPeer(all, peerId) + [(peerId, lastSeen)])
    decreases |all|
  {
    if |all| > k {
      var head, rest, new_ := all[0], all[1..], [(peerId, lastSeen)];
      assert all == [head] + rest;
      CapCommutes(k, rest, peerId, lastSeen);
      LastNTail(k, head, rest);
      WithoutPeerCons(head, rest, peerId);
      if head.0 == peerId {
        assert WithoutPeer(all, peerId) == WithoutPeer(rest, peerId);
      } else {
        WithoutPeerKeepsOthers(rest, peerId);
        LastNTail(k, head, WithoutPeer(rest, peerId) + new_);
        assert WithoutPeer(all, peerId) + new_ == [head] + (WithoutPeer(rest, peerId) + new_);
      }
    }
  }

  lemma LastNTail(k: nat, head: (string, real), rest: Bucket)
    requires |rest| >= k
    ensures LastN(k, [head] + rest) == LastN(k, rest)
  {
  }

  lemma {:induction false} WithoutPeerKeepsOthers(bucket: Bucket, peerId: string)
    requires DistinctPeers(bucket)
    ensures |WithoutPeer(bucket, peerId)| >= |bucket| - 1
  {
    if bucket != [] {
      var n := |bucket| - 1;
      var front := bucket[..n];
      assert forall i :: 0 <= i < n ==> front[i] == bucket[i];
      if bucket[n].0 == peerId {
        assert !Mentions(front, peerId);
        WithoutPeerAbsent(front, peerId);
      } else {
        WithoutPeerKeepsOthers(front, peerId);
      }
    }
  }

  /** Refinement: after every history, bucket i holds the k most recently updated distinct peers of
      distance class i, least recent first. */
  lemma {:induction false} BucketsAreMostRecent(space: Space, history: Bucket, index: nat)
    ensures (index in UpdateAll(space, history)) <==> InClass(space, history, index) != []
    ensures index in UpdateAll(space, history) ==>
              UpdateAll(space, history)[index] == LastN(Max(space.k, 0), MostRecent(InClass(space, history, index)))
  {
    if history != [] {
      var front, last := history[..|history| - 1], history[|history| - 1];
      BucketsAreMostRecent(space, front, index);
      if BucketFor(space, last.0) == index {
        var class_ := InClass(space, front, index);
        var all := MostRecent(class_);
        MostRecentSnoc(class_, last);
        MostRecentDistinct(class_);
        CapCommutes(Max(space.k, 0), all, last.0, last.1);
        if index !in UpdateAll(space, front) {
          assert class_ == [];
          assert WithoutPeer([], last.0) == [];
        }
      }
    }
  }

  /** Every stored entry sits in its own distance class. */
  lemma {:induction false} InClassMembers(space: Space, history: Bucket, index: nat, e: (string, real))
    ensures e in InClass(space, history, index) <==> e in history && BucketFor(space, e.0) == index
  {
    if history != [] {
      var n := |history| - 1;
      assert history == history[..n] + [history[n]];
      InClassMembers(space, history[..n], index, e);
    }
  }

  lemma {:induction false} MostRecentMembers(history: Bucket, e: (string, real))
    ensures e in MostRecent(history) ==> e in history
  {
    if history != [] {
      MostRecentMembers(history[1..], e);
    }
  }

  function Total(table: Table, classes: nat): nat {
    if classes == 0 then 0
    else Total(table, classes - 1) + if classes - 1 in table then |table[classes - 1]| else 0
  }

  /** No peer is stored twice or outside its class, no bucket exceeds k, the only classes are
      0..256, and so the whole table holds at most 257 k entries. */
  lemma TableInvariants(space: Space, history: Bucket)
    requires forall id :: space.keyOf(id) < Pow2(KEYSPACE_BITS)
    ensures
      var table := UpdateAll(space, history);
      && (forall i :: i in table ==> i <= KEYSPACE_BITS)
      && (forall i :: i in table ==> DistinctPeers(table[i]) && |table[i]| <= Max(space.k, 0))
      && (forall i, e :: i in table && e in table[i] ==> BucketFor(space, e.0) == i && e in history)
      && Total(table, KEYSPACE_BITS + 1) <= (KEYSPACE_BITS + 1) * Max(space.k, 0)
  {
    var table := UpdateAll(space, history);
    forall i | i in table
      ensures i <= KEYSPACE_BITS && DistinctPeers(table[i]) && |table[i]| <= Max(space.k, 0)
      ensures forall e: (string, real) :: e in table[i] ==> BucketFor(space, e.0) == i && e in history
    {
      BucketsAreMostRecent(space, history, i);
      var class_ := InClass(space, history, i);
      MostRecentDistinct(class_);
      forall e: (string, real) | e in table[i]
        ensures BucketFor(space, e.0) == i && e in history
      {
        MostRecentMembers(class_, e);
        InClassMembers(space, history, i, e);
      }
      InClassMembers(space, history, i, class_[0]);
      BitLengthBounded(space.keyOf(class_[0].0), space.keyOf(space.localId), KEYSPACE_BITS);
    }
    TotalBounded(table, Max(space.k, 0), KEYSPACE_BITS + 1);
  }

  lemma {:induction false} TotalBounded(table: Table, k: nat, classes: nat)
    requires forall i :: i in table ==> |table[i]| <= k
    ensures Total(table, classes) <= classes * k
  {
    if classes > 0 {
      TotalBounded(table, k, classes - 1);
      OneMore(classes - 1, k);
    }
  }

  lemma OneMore(n: nat, k: nat)
    ensures (n + 1) * k == n * k + k
  {
  }

  /** The table object. */
  class KBucketTable {
    const space: Space
    var buckets: Table

    constructor (space: Space)
      ensures this.space == space && buckets == map[]
    {
      this.space := space;
      buckets := map[];
    }

    method UpdatePeer(peerId: string, lastSeen: real)
      modifies this
      ensures buckets == Update(space, old(buckets), peerId, lastSeen)
    {
      var index := BucketFor(space, peerId);
      var bucket := if index in buckets then buckets[index] else [];
      var kept: Bucket := [];
      for i := 0 to |bucket|
        invariant kept == WithoutPeer(bucket[..i], peerId)
      {
        assert bucket[..i + 1][..i] == bucket[..i];
        if bucket[i].0 != peerId {
          kept := kept + [bucket[i]];
        }
      }
      assert bucket[..|bucket|] == bucket;
      kept := kept + [(peerId, lastSeen)];
      if |kept| > space.k {
        var surplus := |kept| - space.k;
        kept := kept[Min(surplus, |kept|)..];
      }
      buckets := buckets[index := kept];
    }
  }
}

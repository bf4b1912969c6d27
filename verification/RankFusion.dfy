/** Reciprocal rank fusion (orchestrator/memory_rrf.py:23-67), over exact arithmetic. */
module RankFusion {
  import opened Prelude

  datatype Hit = Hit(rowId: Option<string>, text: string)

  /** The key of the n-th hit looked at: its row id, or the next random identifier. */
  function KeyOf(hit: Hit, uuid: nat -> string, n: nat): string {
    if hit.rowId.Some? then hit.rowId.value else uuid(n)
  }

  function Keys(hits: seq<Hit>, uuid: nat -> string, from: nat): (keys: seq<string>)
    ensures |keys| == |hits|
    ensures forall i :: 0 <= i < |hits| ==> keys[i] == KeyOf(hits[i], uuid, from + i)
  {
    seq(|hits|, i requires 0 <= i < |hits| => KeyOf(hits[i], uuid, from + i))
  }

  function Recip(k: nat, rank: nat): real {
    1.0 / (k + rank + 1) as real
  }

  /** What a list adds to the score of a key. */
  function Gain(keys: seq<string>, key: string, k: nat): real {
    if keys == [] then 0.0
    else
      var n := |keys| - 1;
      Gain(keys[..n], key, k) + if keys[n] == key then Recip(k, n) else 0.0
  }

  function Score(fts: seq<string>, vec: seq<string>, k: nat): string -> real {
    key => Gain(fts, key, k) + Gain(vec, key, k)
  }

  /** The distinct keys in order of first appearance: a dictionary's order. */
  function FirstSeen(keys: seq<string>): (order: seq<string>)
    ensures forall x :: x in order <==> x in keys
  {
    if keys == [] then []
    else
      var n := |keys| - 1;
      var front := FirstSeen(keys[..n]);
      assert keys == keys[..n] + [keys[n]];
      if keys[n] in front then front else front + [keys[n]]
  }

  /** Insert behind everything that scores at least as much. */
  function Insert(s: seq<string>, x: string, score: string -> real): seq<string> {
    if s == [] || score(s[|s| - 1]) >= score(x) then s + [x]
    else Insert(s[..|s| - 1], x, score) + [s[|s| - 1]]
  }

  /** A stable sort by descending score. */
  function SortDescending(order: seq<string>, score: string -> real): seq<string> {
    if order == [] then [] else Insert(SortDescending(order[..|order| - 1], score), order[|order| - 1], score)
  }

  /** Python's s[:n]. */
  function Slice<T>(s: seq<T>, n: int): seq<T> {
    if n >= 0 then s[..Min(n, |s|)] else s[..Max(0, |s| + n)]
  }

  function RankedKeys(fts: seq<string>, vec: seq<string>, k: nat, topN: int): seq<string> {
    Slice(SortDescending(FirstSeen(fts + vec), Score(fts, vec, k)), topN)
  }

  /** The keys of the merged hits: without vector hits the keyword list is only cut to size. */
  function MergedKeys(fts: seq<string>, vec: seq<string>, k: nat, topN: int): seq<string> {
    if vec == [] then Slice(fts, topN) else RankedKeys(fts, vec, k, topN)
  }

  /** The hit a key stands for: the first one seen with it. */
  function FirstHit(keys: seq<string>, hits: seq<Hit>, key: string): Hit
    requires |keys| == |hits| && key in keys
  {
    var n := |keys| - 1;
    assert keys == keys[..n] + [keys[n]];
    if key in keys[..n] then FirstHit(keys[..n], hits[..n], key) else hits[n]
  }

  // ---- the sort ----

  ghost predicate Before(s: seq<string>, x: string, y: string) {
    exists i, j :: 0 <= i < j < |s| && s[i] == x && s[j] == y
  }

  /** Higher scores first; equal scores in the order of first appearance. */
  ghost predicate Sorted(s: seq<string>, order: seq<string>, score: string -> real) {
    forall i, j :: 0 <= i < j < |s| ==>
      score(s[i]) > score(s[j]) || (score(s[i]) == score(s[j]) && Before(order, s[i], s[j]))
  }

  lemma {:induction false} InsertKeeps(s: seq<string>, x: string, score: string -> real)
    ensures multiset(Insert(s, x, score)) == multiset(s) + multiset{x}
    ensures |Insert(s, x, score)| == |s| + 1
  {
    if !(s == [] || score(s[|s| - 1]) >= score(x)) {
      InsertKeeps(s[..|s| - 1], x, score);
      assert s == s[..|s| - 1] + [s[|s| - 1]];
    }
  }

  lemma MembersOfInsert(s: seq<string>, x: string, score: string -> real, y: string)
    ensures y in Insert(s, x, score) <==> y in s || y == x
  {
    InsertKeeps(s, x, score);
    assert y in Insert(s, x, score) <==> y in multiset(Insert(s, x, score));
    assert y in s <==> y in multiset(s);
  }

  /** Any order that has the pairs of `s` in order and every member of `s` before x. */
  lemma {:induction false} InsertSorted(s: seq<string>, x: string, order: seq<string>, score: string -> real)
    requires Sorted(s, order, score)
    requires forall y :: y in s ==> Before(order, y, x)
    ensures Sorted(Insert(s, x, score), order, score)
  {
    hide Before;
    if s == [] || score(s[|s| - 1]) >= score(x) {
      var t := s + [x];
      forall i, j | 0 <= i < j < |t|
        ensures score(t[i]) > score(t[j]) || (score(t[i]) == score(t[j]) && Before(order, t[i], t[j]))
      {
        if j == |s| {
          assert s[i] in s;
        }
      }
    } else {
      var front, last := s[..|s| - 1], s[|s| - 1];
      assert forall y :: y in front ==> y in s;
      InsertSorted(front, x, order, score);
      var t := Insert(front, x, score);
      forall i | 0 <= i < |t|
        ensures score(t[i]) > score(last) || (score(t[i]) == score(last) && Before(order, t[i], last))
      {
        MembersOfInsert(front, x, score, t[i]);
        if t[i] != x {
          var p :| 0 <= p < |front| && front[p] == t[i];
          assert s[p] == t[i];
        }
      }
    }
  }

  lemma BeforeGrows(order: seq<string>, x: string)
    ensures forall a, b :: Before(order, a, b) ==> Before(order + [x], a, b)
    ensures forall a :: a in order ==> Before(order + [x], a, x)
  {
    var longer := order + [x];
    forall a, b | Before(order, a, b)
      ensures Before(longer, a, b)
    {
      var i, j :| 0 <= i < j < |order| && order[i] == a && order[j] == b;
      assert longer[i] == a && longer[j] == b;
    }
    forall a | a in order
      ensures Before(longer, a, x)
    {
      var i :| 0 <= i < |order| && order[i] == a;
      assert longer[i] == a && longer[|order|] == x;
    }
  }

  lemma SortedGrows(s: seq<string>, order: seq<string>, longer: seq<string>, score: string -> real)
    requires Sorted(s, order, score) && forall a, b :: Before(order, a, b) ==> Before(longer, a, b)
    ensures Sorted(s, longer, score)
  {
    hide Before;
  }

  /** The sort keeps the elements and puts them in order, ties by first appearance. */
  lemma {:induction false} SortIsCorrect(order: seq<string>, score: string -> real)
    ensures multiset(SortDescending(order, score)) == multiset(order)
    ensures Sorted(SortDescending(order, score), order, score)
  {
    if order != [] {
      var n := |order| - 1;
      var front, x := order[..n], order[n];
      assert order == front + [x];
      SortIsCorrect(front, score);
      var s := SortDescending(front, score);
      InsertKeeps(s, x, score);
      BeforeGrows(front, x);
      SortedGrows(s, front, order, score);
      forall y | y in s
        ensures Before(order, y, x)
      {
        assert y in multiset(s) && y in front;
      }
      InsertSorted(s, x, order, score);
    }
  }

  lemma {:induction false} FirstSeenNoDup(keys: seq<string>)
    ensures NoDup(FirstSeen(keys))
  {
    if keys != [] {
      FirstSeenNoDup(keys[..|keys| - 1]);
    }
  }

  lemma NoDupFromMultiset(s: seq<string>, t: seq<string>)
    requires multiset(s) == multiset(t) && NoDup(t)
    ensures NoDup(s) && |s| == |t|
  {
    forall i, j | 0 <= i < j < |s|
      ensures s[i] != s[j]
    {
      if s[i] == s[j] {
        TwiceInMultiset(s, i, j);
        OnceInMultiset(t, s[i]);
      }
    }
    assert |s| == |multiset(s)|;
  }

  lemma TwiceInMultiset(s: seq<string>, i: nat, j: nat)
    requires i < j < |s| && s[i] == s[j]
    ensures multiset(s)[s[i]] >= 2
  {
    assert s == s[..j] + [s[j]] + s[j + 1..];
    assert s[..j][i] == s[i];
    assert s[i] in multiset(s[..j]);
  }

  lemma {:induction false} OnceInMultiset(t: seq<string>, x: string)
    requires NoDup(t)
    ensures multiset(t)[x] <= 1
  {
    if t != [] {
      var n := |t| - 1;
      assert t == t[..n] + [t[n]];
      OnceInMultiset(t[..n], x);
      if t[n] == x {
        assert x !in t[..n];
        assert multiset(t[..n])[x] == 0;
      }
    }
  }

  // ---- scores ----

  lemma {:induction false} GainAbsent(keys: seq<string>, key: string, k: nat)
    requires key !in keys
    ensures Gain(keys, key, k) == 0.0
  {
    if keys != [] {
      GainAbsent(keys[..|keys| - 1], key, k);
    }
  }

  /** With distinct keys a list adds exactly the reciprocal rank. */
  lemma {:induction false} GainAt(keys: seq<string>, i: nat, k: nat)
    requires NoDup(keys) && i < |keys|
    ensures Gain(keys, keys[i], k) == Recip(k, i)
  {
    hide Recip;
    var n := |keys| - 1;
    if i == n {
      GainAbsent(keys[..n], keys[i], k);
    } else {
      GainAt(keys[..n], i, k);
      assert keys[..n][i] == keys[i];
    }
  }

  lemma RecipShrinks(k: nat, r: nat, s: nat)
    requires r < s
    ensures 0.0 < Recip(k, s) < Recip(k, r)
  {
    Reciprocals((k + r + 1) as real, (k + s + 1) as real);
  }

  lemma Reciprocals(a: real, b: real)
    requires 0.0 < a < b
    ensures 0.0 < 1.0 / b < 1.0 / a
  {
    var x, y := 1.0 / a, 1.0 / b;
    Scaled(x, a, b);
    if y >= x {
      Scaled(b, x, y);
    }
  }

  lemma Scaled(x: real, a: real, b: real)
    requires x > 0.0 && a <= b
    ensures x * a <= x * b && (a < b ==> x * a < x * b)
  {
  }

  lemma RecipPositive(k: nat, r: nat)
    ensures Recip(k, r) > 0.0
  {
  }

  /** In this list x stands ahead of y, or y is not in it. */
  ghost predicate NoWorse(keys: seq<string>, x: string, y: string) {
    y in keys ==> Before(keys, x, y)
  }

  /** In this list x stands, and ahead of y if y is there. */
  ghost predicate Better(keys: seq<string>, x: string, y: string) {
    x in keys && NoWorse(keys, x, y)
  }

  lemma GainCompares(keys: seq<string>, x: string, y: string, k: nat)
    requires NoDup(keys) && NoWorse(keys, x, y)
    ensures Gain(keys, x, k) >= Gain(keys, y, k)
    ensures Better(keys, x, y) ==> Gain(keys, x, k) > Gain(keys, y, k)
  {
    hide Recip;
    if y in keys {
      var i, j :| 0 <= i < j < |keys| && keys[i] == x && keys[j] == y;
      GainAt(keys, i, k);
      GainAt(keys, j, k);
      RecipShrinks(k, i, j);
    } else {
      GainAbsent(keys, y, k);
      if x in keys {
        var i :| 0 <= i < |keys| && keys[i] == x;
        GainAt(keys, i, k);
        RecipPositive(k, i);
      } else {
        GainAbsent(keys, x, k);
      }
    }
  }

  // ---- the result ----

  lemma RankedAll(fts: seq<string>, vec: seq<string>, k: nat)
    ensures
      var all := SortDescending(FirstSeen(fts + vec), Score(fts, vec, k));
      && NoDup(all) && |all| == |FirstSeen(fts + vec)|
      && (forall x :: x in all <==> x in fts || x in vec)
      && Sorted(all, FirstSeen(fts + vec), Score(fts, vec, k))
  {
    var order, score := FirstSeen(fts + vec), Score(fts, vec, k);
    var all := SortDescending(order, score);
    SortIsCorrect(order, score);
    FirstSeenNoDup(fts + vec);
    NoDupFromMultiset(all, order);
    forall x
      ensures x in all <==> x in fts || x in vec
    {
      assert x in all <==> x in multiset(all);
      assert x in order <==> x in multiset(order);
    }
  }

  /** No duplicates, only keys of the lists, and in descending order of score with ties in order of
      first appearance, whatever the lists; nothing is left out that scores more than something kept. */
  lemma FusionIsSorted(fts: seq<string>, vec: seq<string>, k: nat, topN: int)
    ensures
      var ranked := RankedKeys(fts, vec, k, topN);
      && NoDup(ranked) && Sorted(ranked, FirstSeen(fts + vec), Score(fts, vec, k))
      && (forall x :: x in ranked ==> x in fts || x in vec)
      && (topN >= 0 ==> |ranked| == Min(topN, |FirstSeen(fts + vec)|))
      && (topN < 0 ==> |ranked| == Max(0, |FirstSeen(fts + vec)| + topN))
      && (forall x, y :: y in ranked && (x in fts || x in vec) && Score(fts, vec, k)(x) > Score(fts, vec, k)(y) ==> Before(ranked, x, y))
  {
    hide Before;
    hide FirstSeen;
    hide Score;
    hide SortDescending;
    RankedAll(fts, vec, k);
    var score := Score(fts, vec, k);
    var all := SortDescending(FirstSeen(fts + vec), score);
    var ranked := RankedKeys(fts, vec, k, topN);
    forall x, y | y in ranked && (x in fts || x in vec) && score(x) > score(y)
      ensures Before(ranked, x, y)
    {
      HigherIsBefore(all, |ranked|, FirstSeen(fts + vec), score, x, y);
    }
  }

  lemma HigherIsBefore(all: seq<string>, n: nat, order: seq<string>, score: string -> real, x: string, y: string)
    requires n <= |all| && Sorted(all, order, score) && x in all && y in all[..n] && score(x) > score(y)
    ensures Before(all[..n], x, y)
  {
    var i :| 0 <= i < |all| && all[i] == x;
    var j :| 0 <= j < n && all[..n][j] == y;
    assert all[j] == y;
    assert i < j;
    assert all[..n][i] == x;
  }

  // ---- the branch without vector hits ----

  lemma {:induction false} FirstSeenDistinct(keys: seq<string>)
    requires NoDup(keys)
    ensures FirstSeen(keys) == keys
  {
    if keys != [] {
      var n := |keys| - 1;
      FirstSeenDistinct(keys[..n]);
      assert keys == keys[..n] + [keys[n]];
    }
  }

  lemma {:induction false} SortKeepsDescending(order: seq<string>, score: string -> real)
    requires forall i, j :: 0 <= i < j < |order| ==> score(order[i]) >= score(order[j])
    ensures SortDescending(order, score) == order
  {
    if order != [] {
      var n := |order| - 1;
      SortKeepsDescending(order[..n], score);
      assert order == order[..n] + [order[n]];
    }
  }

  /** Fusing with an empty list only cuts: with distinct keyword keys the two branches agree. */
  lemma FusionWithoutVectors(fts: seq<string>, k: nat, topN: int)
    requires NoDup(fts)
    ensures RankedKeys(fts, [], k, topN) == Slice(fts, topN)
  {
    hide Recip;
    hide Gain;
    var score := Score(fts, [], k);
    assert fts + [] == fts;
    FirstSeenDistinct(fts);
    forall i, j | 0 <= i < j < |fts|
      ensures score(fts[i]) >= score(fts[j])
    {
      GainAt(fts, i, k);
      GainAt(fts, j, k);
      GainAbsent([], fts[i], k);
      GainAbsent([], fts[j], k);
      RecipShrinks(k, i, j);
    }
    SortKeepsDescending(fts, score);
  }

  /** The merged keys are the ranked keys, vector hits or not, when the keyword keys are distinct. */
  lemma MergedAreRanked(fts: seq<string>, vec: seq<string>, k: nat, topN: int)
    requires vec != [] || NoDup(fts)
    ensures MergedKeys(fts, vec, k, topN) == RankedKeys(fts, vec, k, topN)
  {
    hide RankedKeys;
    if vec == [] {
      FusionWithoutVectors(fts, k, topN);
    }
  }

  /** With distinct keyword keys, or any vector hits, the merge has no duplicates, is sorted by score with
      ties in order of first appearance, and leaves nothing out that scores more than something kept. */
  lemma MergeIsSorted(fts: seq<string>, vec: seq<string>, k: nat, topN: int)
    requires vec != [] || NoDup(fts)
    ensures
      var merged := MergedKeys(fts, vec, k, topN);
      && NoDup(merged) && Sorted(merged, FirstSeen(fts + vec), Score(fts, vec, k))
      && (forall x :: x in merged ==> x in fts || x in vec)
      && (topN >= 0 ==> |merged| == Min(topN, |FirstSeen(fts + vec)|))
      && (topN < 0 ==> |merged| == Max(0, |FirstSeen(fts + vec)| + topN))
      && (forall x, y :: y in merged && (x in fts || x in vec) && Score(fts, vec, k)(x) > Score(fts, vec, k)(y) ==> Before(merged, x, y))
  {
    hide RankedKeys;
    hide MergedKeys;
    hide Sorted;
    hide Before;
    MergedAreRanked(fts, vec, k, topN);
    FusionIsSorted(fts, vec, k, topN);
  }

  /** Where a key stands in a list. */
  function Position(keys: seq<string>, key: string): Option<nat> {
    if keys == [] then None
    else if keys[|keys| - 1] == key then Some(|keys| - 1)
    else Position(keys[..|keys| - 1], key)
  }

  /** One over the rank constant plus the rank, counted from one; nothing for an absent key. */
  function Share(keys: seq<string>, key: string, k: nat): real {
    var position := Position(keys, key);
    if position.Some? then 1.0 / (k + position.value + 1) as real else 0.0
  }

  lemma {:induction false} PositionStands(keys: seq<string>, key: string)
    ensures Position(keys, key).Some? <==> key in keys
    ensures Position(keys, key).Some? ==> Position(keys, key).value < |keys| && keys[Position(keys, key).value] == key
  {
    if keys != [] {
      var n := |keys| - 1;
      PositionStands(keys[..n], key);
      assert keys == keys[..n] + [keys[n]];
    }
  }

  /** The scores, in numbers: with distinct keys within each list a key scores the sum of its shares. */
  lemma ScoresAreReciprocalRanks(fts: seq<string>, vec: seq<string>, k: nat, key: string)
    requires NoDup(fts) && NoDup(vec)
    ensures Score(fts, vec, k)(key) == Share(fts, key, k) + Share(vec, key, k)
  {
    ShareIsGain(fts, key, k);
    ShareIsGain(vec, key, k);
  }

  lemma ShareIsGain(keys: seq<string>, key: string, k: nat)
    requires NoDup(keys)
    ensures Gain(keys, key, k) == Share(keys, key, k)
  {
    PositionStands(keys, key);
    if key in keys {
      GainAt(keys, Position(keys, key).value, k);
    } else {
      GainAbsent(keys, key, k);
    }
  }

  /** The merge in numbers: its keys come in order of the summed shares, and a key that is left out by the
      cut has no more than any key that is kept. */
  lemma MergeRanksByShares(fts: seq<string>, vec: seq<string>, k: nat, topN: int)
    requires NoDup(fts) && NoDup(vec)
    ensures
      var merged := MergedKeys(fts, vec, k, topN);
      && (forall i, j :: 0 <= i < j < |merged| ==>
            Share(fts, merged[i], k) + Share(vec, merged[i], k) >= Share(fts, merged[j], k) + Share(vec, merged[j], k))
      && (forall x, y :: y in merged && x !in merged && (x in fts || x in vec) ==>
            Share(fts, x, k) + Share(vec, x, k) <= Share(fts, y, k) + Share(vec, y, k))
  {
    hide MergedKeys;
    hide Share;
    hide Before;
    var merged := MergedKeys(fts, vec, k, topN);
    var score := Score(fts, vec, k);
    MergeIsSorted(fts, vec, k, topN);
    forall x
      ensures score(x) == Share(fts, x, k) + Share(vec, x, k)
    {
      ScoresAreReciprocalRanks(fts, vec, k, x);
    }
    forall x, y | y in merged && x !in merged && (x in fts || x in vec)
      ensures score(x) <= score(y)
    {
      if score(x) > score(y) {
        BeforeIsIn(merged, x, y);
      }
    }
  }

  /** Where a key first appears. */
  function FirstAt(keys: seq<string>, key: string): nat {
    if keys == [] || keys[0] == key then 0 else 1 + FirstAt(keys[1..], key)
  }

  lemma {:induction false} FirstAtStands(keys: seq<string>, key: string)
    requires key in keys
    ensures FirstAt(keys, key) < |keys| && keys[FirstAt(keys, key)] == key
    ensures forall i :: 0 <= i < FirstAt(keys, key) ==> keys[i] != key
  {
    if keys[0] != key {
      assert keys == [keys[0]] + keys[1..];
      FirstAtStands(keys[1..], key);
    }
  }

  lemma {:induction false} FirstAtPrefix(keys: seq<string>, more: seq<string>, key: string)
    requires key in keys
    ensures FirstAt(keys + more, key) == FirstAt(keys, key)
  {
    assert (keys + more)[0] == keys[0];
    if keys[0] != key {
      assert keys == [keys[0]] + keys[1..];
      assert (keys + more)[1..] == keys[1..] + more;
      FirstAtPrefix(keys[1..], more, key);
    }
  }

  lemma {:induction false} FirstAtEnd(keys: seq<string>, key: string)
    requires key !in keys
    ensures FirstAt(keys + [key], key) == |keys|
  {
    if keys != [] {
      assert (keys + [key])[1..] == keys[1..] + [key] && (keys + [key])[0] == keys[0];
      FirstAtEnd(keys[1..], key);
    }
  }

  lemma FirstSeenUnfolds(keys: seq<string>)
    ensures keys == [] ==> FirstSeen(keys) == []
    ensures keys != [] ==>
      var front, x := keys[..|keys| - 1], keys[|keys| - 1];
      FirstSeen(keys) == if x in FirstSeen(front) then FirstSeen(front) else FirstSeen(front) + [x]
  {
  }

  /** The dictionary's order is the order of first appearance. */
  lemma {:induction false} FirstSeenInOrder(keys: seq<string>)
    ensures
      var order := FirstSeen(keys);
      forall i, j :: 0 <= i < j < |order| ==> FirstAt(keys, order[i]) < FirstAt(keys, order[j])
  {
    hide FirstAt;
    hide FirstSeen;
    FirstSeenUnfolds(keys);
    if keys != [] {
      var n := |keys| - 1;
      var front, x := keys[..n], keys[n];
      assert keys == front + [x];
      FirstSeenInOrder(front);
      var before, order := FirstSeen(front), FirstSeen(keys);
      forall i | 0 <= i < |before|
        ensures FirstAt(keys, before[i]) == FirstAt(front, before[i]) < n
      {
        assert before[i] in front;
        FirstAtPrefix(front, [x], before[i]);
        FirstAtStands(front, before[i]);
      }
      assert order == if x in before then before else before + [x];
      if x !in before {
        FirstAtEnd(front, x);
      }
      forall i, j | 0 <= i < j < |order|
        ensures FirstAt(keys, order[i]) < FirstAt(keys, order[j])
      {
        assert order[i] == before[i] && FirstAt(keys, before[i]) < n;
        if j < |before| {
          assert order[j] == before[j];
          assert FirstAt(keys, before[j]) == FirstAt(front, before[j]);
        }
      }
    }
  }

  /** Among equal scores the merge keeps the order of first appearance, keyword hits first. */
  lemma TiesByFirstAppearance(fts: seq<string>, vec: seq<string>, k: nat, topN: int, i: nat, j: nat)
    requires NoDup(fts) && NoDup(vec) && i < j < |MergedKeys(fts, vec, k, topN)|
    requires
      var merged := MergedKeys(fts, vec, k, topN);
      Share(fts, merged[i], k) + Share(vec, merged[i], k) == Share(fts, merged[j], k) + Share(vec, merged[j], k)
    ensures
      FirstAt(fts + vec, MergedKeys(fts, vec, k, topN)[i]) < FirstAt(fts + vec, MergedKeys(fts, vec, k, topN)[j])
  {
    hide MergedKeys;
    hide Share;
    hide FirstAt;
    var merged := MergedKeys(fts, vec, k, topN);
    MergeIsSorted(fts, vec, k, topN);
    ScoresAreReciprocalRanks(fts, vec, k, merged[i]);
    ScoresAreReciprocalRanks(fts, vec, k, merged[j]);
    FirstSeenInOrder(fts + vec);
    var order := FirstSeen(fts + vec);
    assert Before(order, merged[i], merged[j]);
    var a, b :| 0 <= a < b < |order| && order[a] == merged[i] && order[b] == merged[j];
  }

  /** A key stands for the first hit that has it: the keyword hit when both lists do. */
  lemma {:induction false} FirstHitIsFirst(keys: seq<string>, hits: seq<Hit>, key: string)
    requires |keys| == |hits| && key in keys
    ensures FirstAt(keys, key) < |hits| && FirstHit(keys, hits, key) == hits[FirstAt(keys, key)]
  {
    hide FirstAt;
    var n := |keys| - 1;
    var front := keys[..n];
    assert keys == front + [keys[n]];
    if key in front {
      FirstHitIsFirst(front, hits[..n], key);
      FirstAtPrefix(front, [keys[n]], key);
    } else {
      FirstAtEnd(front, key);
    }
  }

  lemma BeforeIsIn(s: seq<string>, x: string, y: string)
    requires Before(s, x, y)
    ensures x in s
  {
  }

  /** For all inputs: the merged keys are distinct if and only if there are vector hits or the returned
      keyword keys are distinct to begin with. */
  lemma MergeIsDistinctExactly(fts: seq<string>, vec: seq<string>, k: nat, topN: int)
    ensures NoDup(MergedKeys(fts, vec, k, topN)) <==> vec != [] || NoDup(Slice(fts, topN))
  {
    hide RankedKeys;
    FusionIsSorted(fts, vec, k, topN);
  }

  /** Without vector hits a repeated keyword key is returned twice; one vector hit removes the repeat. */
  lemma RepeatedKeywordHit()
    ensures MergedKeys(["a", "a"], [], 60, 5) == ["a", "a"]
    ensures NoDup(MergedKeys(["a", "a"], ["b"], 60, 5))
  {
    hide RankedKeys;
    FusionIsSorted(["a", "a"], ["b"], 60, 5);
    assert ["a", "a"][..2] == ["a", "a"];
  }

  /** Pareto consistency: with distinct keys within each list, a hit that is nowhere behind another and
      ahead of it in at least one list is ahead of it in the output, whenever the latter appears. */
  lemma FusionIsParetoConsistent(fts: seq<string>, vec: seq<string>, k: nat, topN: int, x: string, y: string)
    requires NoDup(fts) && NoDup(vec)
    requires NoWorse(fts, x, y) && NoWorse(vec, x, y) && (Better(fts, x, y) || Better(vec, x, y))
    requires y in MergedKeys(fts, vec, k, topN)
    ensures Before(MergedKeys(fts, vec, k, topN), x, y)
  {
    hide MergedKeys;
    GainCompares(fts, x, y, k);
    GainCompares(vec, x, y, k);
    MergeIsSorted(fts, vec, k, topN);
  }

  /** A hit in both lists at rank r or better is ahead of every hit that is in one list only, at rank r
      or worse. */
  lemma BothListsBeatOne(fts: seq<string>, vec: seq<string>, k: nat, topN: int, x: string, y: string, i: nat, j: nat, r: nat)
    requires NoDup(fts) && NoDup(vec)
    requires i < |fts| && fts[i] == x && j < |vec| && vec[j] == x && i <= r && j <= r
    requires (y in fts) != (y in vec)
    requires forall n :: r > n >= 0 ==> (n < |fts| ==> fts[n] != y) && (n < |vec| ==> vec[n] != y)
    requires y in MergedKeys(fts, vec, k, topN)
    ensures Before(MergedKeys(fts, vec, k, topN), x, y)
  {
    hide MergedKeys;
    hide Recip;
    GainAt(fts, i, k);
    GainAt(vec, j, k);
    RecipAtMost(k, i, r);
    RecipAtMost(k, j, r);
    RecipPositive(k, r);
    if y in fts {
      SingleGain(fts, y, k, r);
      GainAbsent(vec, y, k);
    } else {
      SingleGain(vec, y, k, r);
      GainAbsent(fts, y, k);
    }
    MergeIsSorted(fts, vec, k, topN);
  }

  lemma RecipAtMost(k: nat, i: nat, r: nat)
    requires i <= r
    ensures Recip(k, r) <= Recip(k, i)
  {
    hide Recip;
    if i < r {
      RecipShrinks(k, i, r);
    }
  }

  lemma SingleGain(keys: seq<string>, y: string, k: nat, r: nat)
    requires NoDup(keys) && y in keys && forall n :: r > n >= 0 && n < |keys| ==> keys[n] != y
    ensures Gain(keys, y, k) <= Recip(k, r)
  {
    hide Recip;
    var n :| 0 <= n < |keys| && keys[n] == y;
    GainAt(keys, n, k);
    RecipAtMost(k, r, n);
  }

  // ---- the loops ----

  function HitsFor(keys: seq<string>, hits: seq<Hit>, wanted: seq<string>): seq<Hit>
    requires |keys| == |hits| && forall x :: x in wanted ==> x in keys
  {
    seq(|wanted|, i requires 0 <= i < |wanted| => assert wanted[i] in wanted; FirstHit(keys, hits, wanted[i]))
  }

  /** The dictionaries after the keys seen so far. */
  ghost predicate Tallied(order: seq<string>, scores: map<string, real>, items: map<string, Hit>, keys: seq<string>,
                          hits: seq<Hit>, score: string -> real) {
    && |keys| == |hits| && order == FirstSeen(keys)
    && (forall x :: x in scores <==> x in keys) && (forall x :: x in items <==> x in keys)
    && (forall x :: x in keys ==> scores[x] == score(x) && items[x] == FirstHit(keys, hits, x))
  }

  function Bump(scores: map<string, real>, key: string, amount: real): map<string, real> {
    scores[key := (if key in scores then scores[key] else 0.0) + amount]
  }

  function SetDefault(items: map<string, Hit>, key: string, hit: Hit): map<string, Hit> {
    if key in items then items else items[key := hit]
  }

  lemma TallyOne(order: seq<string>, scores: map<string, real>, items: map<string, Hit>, keys: seq<string>, hits: seq<Hit>,
                 score: string -> real, key: string, hit: Hit, amount: real, after: string -> real)
    requires Tallied(order, scores, items, keys, hits, score)
    requires forall x :: after(x) == score(x) + if x == key then amount else 0.0
    requires key !in keys ==> score(key) == 0.0
    ensures Tallied(if key in order then order else order + [key], Bump(scores, key, amount), SetDefault(items, key, hit),
                    keys + [key], hits + [hit], after)
  {
    assert (keys + [key])[..|keys|] == keys && (hits + [hit])[..|hits|] == hits;
  }

  lemma GainNext(keys: seq<string>, i: nat, k: nat)
    requires i < |keys|
    ensures forall x :: Gain(keys[..i + 1], x, k) == Gain(keys[..i], x, k) + if x == keys[i] then Recip(k, i) else 0.0
  {
    assert keys[..i + 1][..i] == keys[..i];
  }

  /** Some hit with this key. */
  ghost predicate HitWith(keys: seq<string>, hits: seq<Hit>, key: string, hit: Hit)
    requires |keys| == |hits|
  {
    exists n :: 0 <= n < |keys| && keys[n] == key && hits[n] == hit
  }

  /** The hits carry the given keys, one by one. */
  ghost predicate CarryKeys(merged: seq<Hit>, wanted: seq<string>, keys: seq<string>, hits: seq<Hit>)
    requires |keys| == |hits|
  {
    && |merged| == |wanted|
    && (forall i :: 0 <= i < |merged| ==> HitWith(keys, hits, wanted[i], merged[i]))
  }

  lemma {:induction false} FirstHitStands(keys: seq<string>, hits: seq<Hit>, key: string) returns (n: nat)
    requires |keys| == |hits| && key in keys
    ensures n < |keys| && keys[n] == key && hits[n] == FirstHit(keys, hits, key)
  {
    n := |keys| - 1;
    if key in keys[..n] {
      n := FirstHitStands(keys[..n], hits[..n], key);
    } else {
      assert keys == keys[..n] + [keys[n]];
    }
  }

  lemma HitsForCarry(keys: seq<string>, hits: seq<Hit>, wanted: seq<string>)
    requires |keys| == |hits| && forall x :: x in wanted ==> x in keys
    ensures CarryKeys(HitsFor(keys, hits, wanted), wanted, keys, hits)
  {
    forall i | 0 <= i < |wanted|
      ensures HitWith(keys, hits, wanted[i], HitsFor(keys, hits, wanted)[i])
    {
      assert wanted[i] in wanted;
      var n := FirstHitStands(keys, hits, wanted[i]);
    }
  }

  lemma SliceCarries(keys: seq<string>, hits: seq<Hit>, topN: int)
    requires |keys| == |hits|
    ensures CarryKeys(Slice(hits, topN), Slice(keys, topN), keys, hits)
  {
    forall i | 0 <= i < |Slice(hits, topN)|
      ensures HitWith(keys, hits, Slice(keys, topN)[i], Slice(hits, topN)[i])
    {
      assert keys[i] == Slice(keys, topN)[i] && hits[i] == Slice(hits, topN)[i];
    }
  }

  /** The random identifiers differ from each other and from the row ids of these hits. */
  ghost predicate FreshIds(hits: seq<Hit>, uuid: nat -> string) {
    && (forall m: nat, n: nat :: m != n ==> uuid(m) != uuid(n))
    && (forall i, n: nat :: 0 <= i < |hits| ==> hits[i].rowId != Some(uuid(n)))
  }

  /** Two hits of a merge are taken for the same memory exactly when they have the same row id; a hit
      without one is like no other. */
  lemma KeysIdentifyHits(ftsHits: seq<Hit>, vecHits: seq<Hit>, uuid: nat -> string, i: nat, j: nat)
    requires FreshIds(ftsHits + vecHits, uuid) && i < j < |ftsHits + vecHits|
    ensures
      var hits := ftsHits + vecHits;
      var keys := Keys(ftsHits, uuid, 0) + Keys(vecHits, uuid, |ftsHits|);
      |keys| == |hits| && (keys[i] == keys[j] <==> hits[i].rowId.Some? && hits[i].rowId == hits[j].rowId)
  {
    var hits := ftsHits + vecHits;
    var keys := Keys(ftsHits, uuid, 0) + Keys(vecHits, uuid, |ftsHits|);
    assert keys[i] == KeyOf(hits[i], uuid, i) && keys[j] == KeyOf(hits[j], uuid, j);
    assert hits[i].rowId != Some(uuid(j)) && hits[j].rowId != Some(uuid(i));
  }

  /** The merge. Without vector hits the keyword hits are returned as they are, cut to size; in either
      case the hits returned carry the merged keys, in their order. */
  method Merge(ftsHits: seq<Hit>, vecHits: seq<Hit>, k: nat, topN: int, uuid: nat -> string) returns (merged: seq<Hit>)
    ensures vecHits == [] ==> merged == Slice(ftsHits, topN)
    ensures vecHits != [] ==>
      var fts, vec := Keys(ftsHits, uuid, 0), Keys(vecHits, uuid, |ftsHits|);
      var ranked := RankedKeys(fts, vec, k, topN);
      (forall x :: x in ranked ==> x in fts + vec) && merged == HitsFor(fts + vec, ftsHits + vecHits, ranked)
    ensures
      var fts, vec := Keys(ftsHits, uuid, 0), Keys(vecHits, uuid, |ftsHits|);
      CarryKeys(merged, MergedKeys(fts, vec, k, topN), fts + vec, ftsHits + vecHits)
  {
    hide Recip;
    hide Gain;
    hide Tallied;
    hide CarryKeys;
    var fts, vec := Keys(ftsHits, uuid, 0), Keys(vecHits, uuid, |ftsHits|);
    if vecHits == [] {
      SliceCarries(fts, ftsHits, topN);
      assert fts + vec == fts && ftsHits + vecHits == ftsHits;
      return Slice(ftsHits, topN);
    }
    var order: seq<string>, scores: map<string, real>, items: map<string, Hit> := [], map[], map[];
    TalliedAtStart(k);
    for i := 0 to |ftsHits|
      invariant Tallied(order, scores, items, fts[..i], ftsHits[..i], Score(fts[..i], [], k))
    {
      var key := KeyOf(ftsHits[i], uuid, i);
      FtsTurn(order, scores, items, fts, ftsHits, i, k);
      order := if key in order then order else order + [key];
      scores := Bump(scores, key, Recip(k, i));
      items := SetDefault(items, key, ftsHits[i]);
    }
    assert fts[..|ftsHits|] == fts && ftsHits[..|ftsHits|] == ftsHits;
    assert fts + vec[..0] == fts && ftsHits + vecHits[..0] == ftsHits && vec[..0] == [];
    for j := 0 to |vecHits|
      invariant Tallied(order, scores, items, fts + vec[..j], ftsHits + vecHits[..j], Score(fts, vec[..j], k))
    {
      var key := KeyOf(vecHits[j], uuid, |ftsHits| + j);
      VecTurn(order, scores, items, fts, ftsHits, vec, vecHits, j, k);
      order := if key in order then order else order + [key];
      scores := Bump(scores, key, Recip(k, j));
      items := SetDefault(items, key, vecHits[j]);
    }
    assert vec[..|vecHits|] == vec && vecHits[..|vecHits|] == vecHits;
    var table := scores;
    FinishMerge(order, scores, items, fts, ftsHits, vec, vecHits, k, topN);
    var ranked := Slice(SortDescending(order, x => if x in table then table[x] else 0.0), topN);
    merged := seq(|ranked|, i requires 0 <= i < |ranked| && ranked[i] in items => items[ranked[i]]);
    HitsForCarry(fts + vec, ftsHits + vecHits, ranked);
  }

  lemma TalliedAtStart(k: nat)
    ensures Tallied([], map[], map[], [], [], Score([], [], k))
  {
  }

  lemma FtsTurn(order: seq<string>, scores: map<string, real>, items: map<string, Hit>, fts: seq<string>, hits: seq<Hit>, i: nat, k: nat)
    requires i < |fts| == |hits| && Tallied(order, scores, items, fts[..i], hits[..i], Score(fts[..i], [], k))
    ensures Tallied(if fts[i] in order then order else order + [fts[i]], Bump(scores, fts[i], Recip(k, i)),
                    SetDefault(items, fts[i], hits[i]), fts[..i + 1], hits[..i + 1], Score(fts[..i + 1], [], k))
  {
    hide Tallied;
    hide Recip;
    hide Gain;
    GainNext(fts, i, k);
    GainAbsent([], fts[i], k);
    if fts[i] !in fts[..i] {
      GainAbsent(fts[..i], fts[i], k);
    }
    assert fts[..i + 1] == fts[..i] + [fts[i]] && hits[..i + 1] == hits[..i] + [hits[i]];
    TallyOne(order, scores, items, fts[..i], hits[..i], Score(fts[..i], [], k), fts[i], hits[i], Recip(k, i), Score(fts[..i + 1], [], k));
  }

  lemma VecTurn(order: seq<string>, scores: map<string, real>, items: map<string, Hit>, fts: seq<string>, ftsHits: seq<Hit>,
                vec: seq<string>, hits: seq<Hit>, j: nat, k: nat)
    requires j < |vec| == |hits| && |fts| == |ftsHits|
    requires Tallied(order, scores, items, fts + vec[..j], ftsHits + hits[..j], Score(fts, vec[..j], k))
    ensures Tallied(if vec[j] in order then order else order + [vec[j]], Bump(scores, vec[j], Recip(k, j)),
                    SetDefault(items, vec[j], hits[j]), fts + vec[..j + 1], ftsHits + hits[..j + 1], Score(fts, vec[..j + 1], k))
  {
    hide Tallied;
    hide Recip;
    hide Gain;
    GainNext(vec, j, k);
    if vec[j] !in fts + vec[..j] {
      GainAbsent(fts, vec[j], k);
      GainAbsent(vec[..j], vec[j], k);
    }
    assert fts + vec[..j + 1] == fts + vec[..j] + [vec[j]] && ftsHits + hits[..j + 1] == ftsHits + hits[..j] + [hits[j]];
    TallyOne(order, scores, items, fts + vec[..j], ftsHits + hits[..j], Score(fts, vec[..j], k), vec[j], hits[j], Recip(k, j),
             Score(fts, vec[..j + 1], k));
  }

  lemma SortMembers(order: seq<string>, score: string -> real, y: string)
    requires y in SortDescending(order, score)
    ensures y in order
  {
    hide SortDescending;
    hide Sorted;
    SortIsCorrect(order, score);
    assert y in multiset(SortDescending(order, score));
  }

  lemma {:induction false} SortByAgreeing(order: seq<string>, f: string -> real, g: string -> real)
    requires forall x :: x in order ==> f(x) == g(x)
    ensures SortDescending(order, f) == SortDescending(order, g)
  {
    hide Insert;
    if order != [] {
      var n := |order| - 1;
      var front := order[..n];
      assert forall x :: x in front ==> x in order;
      SortByAgreeing(front, f, g);
      var s := SortDescending(front, f);
      forall y | y in s
        ensures f(y) == g(y)
      {
        SortMembers(front, f, y);
      }
      assert order[n] in order;
      InsertByAgreeing(s, order[n], f, g);
    }
  }

  lemma {:induction false} InsertByAgreeing(s: seq<string>, x: string, f: string -> real, g: string -> real)
    requires f(x) == g(x) && forall y :: y in s ==> f(y) == g(y)
    ensures Insert(s, x, f) == Insert(s, x, g)
  {
    if s != [] {
      assert s[|s| - 1] in s;
      InsertByAgreeing(s[..|s| - 1], x, f, g);
    }
  }

  lemma FinishMerge(order: seq<string>, scores: map<string, real>, items: map<string, Hit>, fts: seq<string>, ftsHits: seq<Hit>,
                    vec: seq<string>, vecHits: seq<Hit>, k: nat, topN: int)
    requires |fts| == |ftsHits| && |vec| == |vecHits|
    requires Tallied(order, scores, items, fts + vec, ftsHits + vecHits, Score(fts, vec, k))
    ensures
      var ranked := Slice(SortDescending(order, x => if x in scores then scores[x] else 0.0), topN);
      && ranked == RankedKeys(fts, vec, k, topN)
      && (forall i :: 0 <= i < |ranked| ==>
            ranked[i] in fts + vec && ranked[i] in items && items[ranked[i]] == FirstHit(fts + vec, ftsHits + vecHits, ranked[i]))
  {
    hide Gain;
    hide FirstHit;
    hide SortDescending;
    hide FirstSeen;
    SortByAgreeing(order, x => if x in scores then scores[x] else 0.0, Score(fts, vec, k));
    RankedFromLists(fts, vec, k, topN);
  }

  lemma RankedFromLists(fts: seq<string>, vec: seq<string>, k: nat, topN: int)
    ensures forall i :: 0 <= i < |RankedKeys(fts, vec, k, topN)| ==> RankedKeys(fts, vec, k, topN)[i] in fts + vec
  {
    hide RankedKeys;
    hide Sorted;
    hide Before;
    FusionIsSorted(fts, vec, k, topN);
    var ranked := RankedKeys(fts, vec, k, topN);
    forall i | 0 <= i < |ranked|
      ensures ranked[i] in fts + vec
    {
      assert ranked[i] in ranked;
    }
  }
}

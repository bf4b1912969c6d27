/** The bounded ordered dictionary behind the manager's three caches
    (orchestrator/state_transition_manager.py:131-139). */
module LruCache {
  import opened Prelude

  /** A dictionary with a recency order, least recently touched first. */
  datatype Lru<K(==,!new), V> = Lru(order: seq<K>, val: map<K, V>)

  ghost predicate WellFormed<K(!new), V>(c: Lru<K, V>, cap: int) {
    && NoDup(c.order)
    && (forall k :: k in c.order <==> k in c.val)
    && |c.order| <= Max(cap, 0)
  }

  function Empty<K(==,!new), V>(): Lru<K, V> {
    Lru([], map[])
  }

  /** Drop the least recently touched key when the dictionary is over the cap. */
  function Evict<K(==,!new), V>(c: Lru<K, V>, cap: int): Lru<K, V> {
    if |c.order| > cap && |c.order| > 0
    then Lru(c.order[1..], c.val - {c.order[0]})
    else c
  }

  /** Insert or refresh a key, then enforce the cap. */
  function Touch<K(==,!new), V>(c: Lru<K, V>, k: K, v: V, cap: int): Lru<K, V> {
    Evict(Lru(Without(c.order, k) + [k], c.val[k := v]), cap)
  }

  /** Replace the value of a present key without changing its recency. */
  function Put<K(==,!new), V>(c: Lru<K, V>, k: K, v: V): Lru<K, V> {
    Lru(c.order, c.val[k := v])
  }

  function Delete<K(==,!new), V>(c: Lru<K, V>, k: K): Lru<K, V> {
    Lru(Without(c.order, k), c.val - {k})
  }

  lemma EvictEffect<K(!new), V>(c: Lru<K, V>, cap: int)
    requires NoDup(c.order) && (forall k :: k in c.order <==> k in c.val)
    requires |c.order| <= Max(cap, 0) + 1
    ensures WellFormed(Evict(c, cap), cap)
    ensures forall q :: q in Evict(c, cap).val ==> q in c.val && Evict(c, cap).val[q] == c.val[q]
    ensures |c.order| <= cap ==> Evict(c, cap) == c
    ensures |c.order| > cap && |c.order| > 0 ==> forall q :: q in c.val && q != c.order[0] ==> q in Evict(c, cap).val
  {
    if |c.order| > cap && |c.order| > 0 {
      assert c.order == [c.order[0]] + c.order[1..];
      assert forall q :: q in c.order <==> q == c.order[0] || q in c.order[1..];
      assert c.order[0] !in c.order[1..];
    }
  }

  /** What one touch does: nothing but the touched key gains an entry, at most one other key
      leaves, and none leaves when the key was present or there was room. With a cap below one
      the cache always ends up empty. */
  lemma TouchEffect<K(!new), V>(c: Lru<K, V>, k: K, v: V, cap: int)
    requires WellFormed(c, cap)
    ensures WellFormed(Touch(c, k, v, cap), cap)
    ensures forall q :: q in Touch(c, k, v, cap).val && q != k ==>
              q in c.val && Touch(c, k, v, cap).val[q] == c.val[q]
    ensures k in Touch(c, k, v, cap).val ==> Touch(c, k, v, cap).val[k] == v
    ensures k in Touch(c, k, v, cap).val <==> cap >= 1
    ensures cap < 1 ==> Touch(c, k, v, cap).val == map[]
    ensures k in c.val || |c.order| < cap ==> forall q :: q in c.val ==> q in Touch(c, k, v, cap).val
  {
    WithoutNoDup(c.order, k);
    var base := Without(c.order, k);
    NoDupSnoc(base, k);
    var full := Lru(base + [k], c.val[k := v]);
    assert forall q :: q in full.order <==> q in full.val;
    EvictEffect(full, cap);
    if cap >= 1 {
      if |full.order| > cap {
        assert full.order[0] == base[0] != k;
      }
    } else {
      assert c.order == [];
      assert full.order == [k];
    }
  }

  /** Taking a key out again leaves every other key and its position alone. */
  lemma {:induction false} WithoutLast<K(!new)>(order: seq<K>, k: K)
    requires k !in order
    ensures Without(order + [k], k) == order
  {
    if order == [] {
      assert order + [k] == [k];
      assert [k][1..] == [];
    } else {
      assert (order + [k])[1..] == order[1..] + [k];
      WithoutLast(order[1..], k);
    }
  }

  lemma {:induction false} WithoutAbsent<K(!new)>(order: seq<K>, k: K)
    requires k !in order
    ensures Without(order, k) == order
  {
    if order != [] {
      WithoutAbsent(order[1..], k);
    }
  }

  // ---- which keys are kept ----

  /** The keys of a history, each at its last use. */
  function LastUses<K(==)>(history: seq<K>): seq<K> {
    if history == [] then []
    else if history[0] in history[1..] then LastUses(history[1..])
    else [history[0]] + LastUses(history[1..])
  }

  /** The recency order after touching these keys one after the other. */
  function OrderAfter<K(==,!new)>(history: seq<K>, cap: int): seq<K> {
    if history == [] then []
    else
      var order := Without(OrderAfter(history[..|history| - 1], cap), history[|history| - 1]) + [history[|history| - 1]];
      if |order| > cap && |order| > 0 then order[1..] else order
  }

  lemma TouchOrder<K(!new), V>(c: Lru<K, V>, k: K, v: V, cap: int)
    ensures Touch(c, k, v, cap).order
         == (var order := Without(c.order, k) + [k]; if |order| > cap && |order| > 0 then order[1..] else order)
  {
  }

  lemma {:induction false} LastUsesMembers<K(!new)>(history: seq<K>)
    ensures forall k :: k in LastUses(history) <==> k in history
    ensures NoDup(LastUses(history))
  {
    if history != [] {
      LastUsesMembers(history[1..]);
      assert history == [history[0]] + history[1..];
    }
  }

  lemma {:induction false} WithoutCons<K(!new)>(x: K, s: seq<K>, k: K)
    ensures Without([x] + s, k) == (if x == k then [] else [x]) + Without(s, k)
  {
    assert ([x] + s)[1..] == s;
  }

  lemma {:induction false} LastUsesSnoc<K(!new)>(history: seq<K>, k: K)
    ensures LastUses(history + [k]) == Without(LastUses(history), k) + [k]
  {
    if history == [] {
      assert [] + [k] == [k] && [k][1..] == [];
    } else {
      var x, rest := history[0], history[1..];
      assert (history + [k])[0] == x && (history + [k])[1..] == rest + [k];
      LastUsesSnoc(rest, k);
      LastUsesMembers(rest);
      if x !in rest {
        WithoutCons(x, LastUses(rest), k);
        if x == k {
          WithoutAbsent(LastUses(rest), k);
        }
      }
    }
  }

  /** Cutting to the last n before or after moving a key to the end makes no difference. */
  lemma CutCommutes<K(!new)>(s: seq<K>, k: K, n: nat)
    requires NoDup(s)
    ensures LastN(n, Without(LastN(n, s), k) + [k]) == LastN(n, Without(s, k) + [k])
  {
    if |s| > n {
      var cut, kept := s[..|s| - n], s[|s| - n..];
      assert s == cut + kept;
      WithoutJoin(cut, kept, k);
      WithoutNoDup(kept, k);
      assert Without(s, k) + [k] == Without(cut, k) + (Without(kept, k) + [k]);
      if k !in kept {
        WithoutAbsent(kept, k);
        TailOfJoin(Without(cut, k), kept + [k], n);
      } else {
        assert |Without(kept, k) + [k]| == n;
        TailOfJoin(Without(cut, k), Without(kept, k) + [k], n);
      }
    }
  }

  lemma {:induction false} WithoutJoin<K(!new)>(a: seq<K>, b: seq<K>, k: K)
    ensures Without(a + b, k) == Without(a, k) + Without(b, k)
  {
    if a == [] {
      assert a + b == b;
    } else {
      assert a + b == [a[0]] + (a[1..] + b);
      WithoutJoin(a[1..], b, k);
      WithoutCons(a[0], a[1..] + b, k);
    }
  }

  lemma TailOfJoin<K>(a: seq<K>, b: seq<K>, n: nat)
    requires |b| >= n
    ensures LastN(n, a + b) == LastN(n, b)
  {
  }

  /** Least recently used: after any history of touches the dictionary holds exactly the last `cap` distinct
      keys that were touched, in the order of their last touch. */
  lemma {:induction false} KeepsTheMostRecent<K(!new)>(history: seq<K>, cap: nat)
    ensures OrderAfter(history, cap) == LastN(cap, LastUses(history))
  {
    if history != [] {
      var n := |history| - 1;
      var front, k := history[..n], history[n];
      assert history == front + [k];
      KeepsTheMostRecent(front, cap);
      LastUsesMembers(front);
      LastUsesSnoc(front, k);
      CutCommutes(LastUses(front), k, cap);
      var order := Without(OrderAfter(front, cap), k) + [k];
      assert |order| <= cap + 1;
      assert OrderAfter(history, cap) == LastN(cap, order);
    }
  }
}

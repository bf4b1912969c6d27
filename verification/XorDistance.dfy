/** The XOR metric over hashed peer ids (orchestrator/distance_bucket.py:48-79). Keys are the
    unsigned integers that the hash yields; nothing below depends on their width. */
module XorDistance {
  import opened Prelude

  const KEYSPACE_BITS := 256

  function Xor(a: nat, b: nat): nat
    decreases a + b
  {
    if a == 0 && b == 0 then 0 else (a % 2 + b % 2) % 2 + 2 * Xor(a / 2, b / 2)
  }

  function BitLength(n: nat): nat {
    if n == 0 then 0 else 1 + BitLength(n / 2)
  }

  /** Bit i of n, counted from the least significant. */
  predicate Bit(n: nat, i: nat) {
    if i == 0 then n % 2 == 1 else Bit(n / 2, i - 1)
  }

  function ShiftRight(n: nat, bits: nat): nat {
    if bits == 0 then n else ShiftRight(n / 2, bits - 1)
  }

  function Pow2(n: nat): nat {
    if n == 0 then 1 else 2 * Pow2(n - 1)
  }

  lemma {:induction false} XorMeets(a: nat, b: nat)
    ensures Xor(a, b) == Xor(b, a)
    ensures Xor(a, b) == 0 <==> a == b
    decreases a + b
  {
    if a != 0 || b != 0 {
      XorMeets(a / 2, b / 2);
    }
  }

  /** Combining two hops reconstructs the direct distance exactly. */
  lemma {:induction false} XorComposes(a: nat, b: nat, c: nat)
    ensures Xor(Xor(a, b), Xor(b, c)) == Xor(a, c)
    decreases a + b + c
  {
    hide Xor;
    if a == 0 && b == 0 && c == 0 {
      HalfXor(0, 0);
      XorMeets(0, 0);
    } else {
      XorComposes(a / 2, b / 2, c / 2);
      HalfXor(a, b);
      HalfXor(b, c);
      HalfXor(a, c);
      HalfXor(Xor(a, b), Xor(b, c));
      Parity(a % 2, b % 2, c % 2);
      FromHalves(Xor(Xor(a, b), Xor(b, c)), Xor(a, c));
    }
  }

  lemma Parity(p: nat, q: nat, r: nat)
    requires p < 2 && q < 2 && r < 2
    ensures ((p + q) % 2 + (q + r) % 2) % 2 == (p + r) % 2
  {
  }

  lemma FromHalves(m: nat, n: nat)
    requires m / 2 == n / 2 && m % 2 == n % 2
    ensures m == n
  {
  }

  lemma HalfXor(a: nat, b: nat)
    ensures Xor(a, b) / 2 == Xor(a / 2, b / 2)
    ensures Xor(a, b) % 2 == (a % 2 + b % 2) % 2
  {
  }

  /** The triangle inequality, which the metric does satisfy. */
  lemma {:induction false} XorTriangle(a: nat, b: nat, c: nat)
    ensures Xor(a, c) <= Xor(a, b) + Xor(b, c)
    decreases a + b + c
  {
    hide Xor;
    if a == 0 && b == 0 && c == 0 {
      XorMeets(0, 0);
    } else {
      XorTriangle(a / 2, b / 2, c / 2);
      HalfXor(a, b);
      HalfXor(b, c);
      HalfXor(a, c);
    }
  }

  /** The stronger bound that the module's documentation states does not hold: keys 2, 0 and 1. */
  lemma DistanceIsNotUltrametric()
    ensures Xor(2, 1) > Max(Xor(2, 0), Xor(0, 1))
  {
    assert Xor(1, 0) == 1;
    assert Xor(2, 1) == 3;
    assert Xor(2, 0) == 2;
    assert Xor(0, 1) == 1;
  }

  lemma {:induction false} BitLengthMonotone(a: nat, b: nat)
    requires a <= b
    ensures BitLength(a) <= BitLength(b)
  {
    if a != 0 {
      BitLengthMonotone(a / 2, b / 2);
    }
  }

  /** XOR-ing the smaller number into the larger does not exceed the larger exactly when the
      smaller is zero or its leading bit is also set in the larger. */
  lemma {:induction false} XorBelow(x: nat, y: nat)
    requires y <= x
    ensures Xor(x, y) <= x <==> y == 0 || Bit(x, BitLength(y) - 1)
    decreases x + y
  {
    hide Xor;
    if y == 0 {
      XorZero(x);
    } else {
      HalfXor(x, y);
      if y == 1 {
        XorZero(x / 2);
        assert BitLength(1 / 2) == 0;
        assert BitLength(y) == 1;
      } else {
        XorBelow(x / 2, y / 2);
        XorChanges(x / 2, y / 2);
        LeadingBitMoves(x, y);
        CompareHalves(Xor(x, y), x);
      }
    }
  }

  lemma LeadingBitMoves(x: nat, y: nat)
    requires y >= 2
    ensures BitLength(y) == BitLength(y / 2) + 1 && BitLength(y / 2) >= 1
    ensures Bit(x, BitLength(y) - 1) == Bit(x / 2, BitLength(y / 2) - 1)
  {
    assert y / 2 > 0;
  }

  lemma CompareHalves(a: nat, b: nat)
    requires a / 2 != b / 2
    ensures a <= b <==> a / 2 <= b / 2
  {
  }

  lemma {:induction false} XorZero(x: nat)
    ensures Xor(x, 0) == x
  {
    if x != 0 {
      XorZero(x / 2);
    }
  }

  /** XOR with a non-zero number changes the value. */
  lemma {:induction false} XorChanges(x: nat, y: nat)
    requires y > 0
    ensures Xor(x, y) != x
    decreases x + y
  {
    HalfXor(x, y);
    if y % 2 == 0 {
      XorChanges(x / 2, y / 2);
    }
  }

  ghost predicate LeadingBitShared(shorter: nat, longer: nat) {
    shorter == 0 || Bit(longer, BitLength(shorter) - 1)
  }

  lemma XorOfHops(x: nat, y: nat)
    ensures Xor(x, y) <= Max(x, y) <==> LeadingBitShared(Min(x, y), Max(x, y))
  {
    XorMeets(x, y);
    XorBelow(Max(x, y), Min(x, y));
  }

  /** Exactly when three keys do obey the documented bound: the shorter hop is zero, or its leading
      bit is set in the longer hop. */
  lemma UltrametricExactly(a: nat, b: nat, c: nat)
    ensures Xor(a, c) <= Max(Xor(a, b), Xor(b, c)) <==>
            LeadingBitShared(Min(Xor(a, b), Xor(b, c)), Max(Xor(a, b), Xor(b, c)))
  {
    XorComposes(a, b, c);
    XorOfHops(Xor(a, b), Xor(b, c));
  }

  /** The bit length of the distance, which is what buckets and correlation use, is an ultrametric. */
  lemma {:induction false} BitLengthIsUltrametric(a: nat, b: nat, c: nat)
    ensures BitLength(Xor(a, c)) <= Max(BitLength(Xor(a, b)), BitLength(Xor(b, c)))
    decreases a + b + c
  {
    if a != 0 || b != 0 || c != 0 {
      BitLengthIsUltrametric(a / 2, b / 2, c / 2);
      HalfXor(a, b);
      HalfXor(b, c);
      HalfXor(a, c);
      XorMeets(a, b);
      XorMeets(b, c);
      XorMeets(a, c);
    }
  }

  /** The correlation test on keys. */
  predicate Correlated(a: nat, b: nat, proximityBits: int) {
    BitLength(Xor(a, b)) <= proximityBits
  }

  /** Correlated keys are exactly those that agree on every bit from `proximityBits` up. */
  lemma {:induction false} CorrelatedMeansSharedPrefix(a: nat, b: nat, proximityBits: nat)
    ensures Correlated(a, b, proximityBits) <==> ShiftRight(a, proximityBits) == ShiftRight(b, proximityBits)
    decreases proximityBits
  {
    XorMeets(a, b);
    if proximityBits > 0 {
      CorrelatedMeansSharedPrefix(a / 2, b / 2, proximityBits - 1);
      HalfXor(a, b);
      XorMeets(a / 2, b / 2);
    }
  }

  /** For a threshold of at least zero, correlation is an equivalence relation; below zero it holds
      of nothing. */
  lemma CorrelationIsEquivalence(a: nat, b: nat, c: nat, proximityBits: int)
    ensures proximityBits >= 0 ==> Correlated(a, a, proximityBits)
    ensures Correlated(a, b, proximityBits) ==> Correlated(b, a, proximityBits)
    ensures Correlated(a, b, proximityBits) && Correlated(b, c, proximityBits) ==> Correlated(a, c, proximityBits)
    ensures proximityBits < 0 ==> !Correlated(a, b, proximityBits)
  {
    XorMeets(a, a);
    XorMeets(a, b);
    BitLengthIsUltrametric(a, b, c);
  }

  /** Keys below 2^bits are at a distance of at most `bits` bits. */
  lemma {:induction false} BitLengthBounded(a: nat, b: nat, bits: nat)
    requires a < Pow2(bits) && b < Pow2(bits)
    ensures BitLength(Xor(a, b)) <= bits
    decreases bits
  {
    if bits == 0 {
      assert Xor(0, 0) == 0;
    } else {
      BitLengthBounded(a / 2, b / 2, bits - 1);
      HalfXor(a, b);
    }
  }

  // ---- what these functions are, bit by bit ----

  /** XOR, bit by bit. */
  lemma {:induction false} XorBits(a: nat, b: nat, i: nat)
    ensures Bit(Xor(a, b), i) <==> Bit(a, i) != Bit(b, i)
    decreases i
  {
    hide Xor;
    HalfXor(a, b);
    if i > 0 {
      XorBits(a / 2, b / 2, i - 1);
    }
  }

  /** The bit length is the exponent of the next power of two above the number. */
  lemma {:induction false} BitLengthExact(n: nat)
    ensures n < Pow2(BitLength(n))
    ensures n > 0 ==> BitLength(n) > 0 && Pow2(BitLength(n) - 1) <= n
  {
    if n > 0 {
      BitLengthExact(n / 2);
      assert n / 2 == 0 ==> BitLength(n) == 1 && Pow2(0) == 1;
    }
  }

  /** The keys have the same bits from the given one up. */
  ghost predicate AgreeFrom(a: nat, b: nat, bits: int) {
    bits >= 0 && forall i: nat :: i >= bits ==> (Bit(a, i) <==> Bit(b, i))
  }

  lemma {:induction false} SameBitsSameNumber(a: nat, b: nat)
    requires AgreeFrom(a, b, 0)
    ensures a == b
    decreases a + b
  {
    assert Bit(a, 0) <==> Bit(b, 0);
    if a != 0 || b != 0 {
      forall i: nat
        ensures Bit(a / 2, i) <==> Bit(b / 2, i)
      {
        assert Bit(a, i + 1) <==> Bit(b, i + 1);
      }
      SameBitsSameNumber(a / 2, b / 2);
    }
  }

  lemma {:induction false} SharedPrefixBits(a: nat, b: nat, bits: nat)
    ensures ShiftRight(a, bits) == ShiftRight(b, bits) <==> AgreeFrom(a, b, bits)
    decreases bits
  {
    if bits == 0 {
      if AgreeFrom(a, b, 0) {
        SameBitsSameNumber(a, b);
      }
    } else {
      SharedPrefixBits(a / 2, b / 2, bits - 1);
      AgreeHalves(a, b, bits);
    }
  }

  lemma AgreeHalves(a: nat, b: nat, bits: nat)
    requires bits > 0
    ensures AgreeFrom(a, b, bits) <==> AgreeFrom(a / 2, b / 2, bits - 1)
  {
    if AgreeFrom(a, b, bits) {
      forall i: nat | i >= bits - 1
        ensures Bit(a / 2, i) <==> Bit(b / 2, i)
      {
        assert Bit(a, i + 1) <==> Bit(b, i + 1);
      }
    }
    if AgreeFrom(a / 2, b / 2, bits - 1) {
      forall i: nat | i >= bits
        ensures Bit(a, i) <==> Bit(b, i)
      {
        assert Bit(a / 2, i - 1) <==> Bit(b / 2, i - 1);
      }
    }
  }

  /** Correlated keys are exactly those that have the same bits from `proximityBits` up. */
  lemma CorrelatedAgree(a: nat, b: nat, bits: int)
    ensures Correlated(a, b, bits) <==> AgreeFrom(a, b, bits)
  {
    if bits >= 0 {
      CorrelatedMeansSharedPrefix(a, b, bits);
      SharedPrefixBits(a, b, bits);
    }
  }
}

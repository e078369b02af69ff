/** Bits of natural numbers, read from the least significant one upwards. */
module Bits {

  /** Is bit `k` of `x` set? */
  predicate BitSet(x: nat, k: nat)
    decreases k
  {
    if k == 0 then x % 2 == 1 else BitSet(x / 2, k - 1)
  }

  /** `x >> k` */
  function Shr(x: nat, k: nat): nat
    decreases k
  {
    if k == 0 then x else Shr(x / 2, k - 1)
  }

  function Pow2(k: nat): (p: nat)
    ensures p >= 1
  {
    if k == 0 then 1 else 2 * Pow2(k - 1)
  }

  /** `x | y` */
  function Or(x: nat, y: nat): nat
    decreases x + y
  {
    if x == 0 && y == 0 then 0
    else 2 * Or(x / 2, y / 2) + if x % 2 == 1 || y % 2 == 1 then 1 else 0
  }

  /** Every bit of `x` is also a bit of `mask`. */
  ghost predicate Within(x: nat, mask: nat) {
    forall k: nat :: BitSet(x, k) ==> BitSet(mask, k)
  }

  lemma {:induction false} ShrStep(x: nat, k: nat)
    ensures Shr(x, k) == 2 * Shr(x, k + 1) + if BitSet(x, k) then 1 else 0
    decreases k
  {
    if k > 0 {
      ShrStep(x / 2, k - 1);
    } else {
      assert Shr(x, 1) == Shr(x / 2, 0);
    }
  }

  lemma {:induction false} ShrExhausts(x: nat, k: nat)
    requires x < Pow2(k)
    ensures Shr(x, k) == 0
    decreases k
  {
    if k > 0 {
      ShrExhausts(x / 2, k - 1);
    }
  }

  lemma {:induction false} OrBits(x: nat, y: nat, k: nat)
    ensures BitSet(Or(x, y), k) <==> BitSet(x, k) || BitSet(y, k)
    decreases k
  {
    if x == 0 && y == 0 {
      assert Or(x, y) == 0;
    } else {
      assert Or(x, y) / 2 == Or(x / 2, y / 2);
      if k > 0 {
        OrBits(x / 2, y / 2, k - 1);
      }
    }
  }

  lemma OrContains(x: nat, y: nat)
    ensures Within(x, Or(x, y)) && Within(y, Or(x, y))
  {
    forall k: nat
      ensures BitSet(x, k) ==> BitSet(Or(x, y), k)
      ensures BitSet(y, k) ==> BitSet(Or(x, y), k)
    {
      OrBits(x, y, k);
    }
  }

  lemma {:induction false} NoBitsInZero(k: nat)
    ensures !BitSet(0, k)
    decreases k
  {
    if k > 0 {
      NoBitsInZero(k - 1);
    }
  }

  lemma {:induction false} SomeBitSet(x: nat) returns (k: nat)
    requires x > 0
    ensures BitSet(x, k) && x >= Pow2(k)
    decreases x
  {
    if x % 2 == 1 {
      k := 0;
    } else {
      var j := SomeBitSet(x / 2);
      k := j + 1;
    }
  }

  lemma {:induction false} Pow2Monotone(i: nat, j: nat)
    requires i <= j
    ensures Pow2(i) <= Pow2(j)
    decreases j
  {
    if i < j {
      Pow2Monotone(i, j - 1);
    }
  }

  lemma {:induction false} Pow2Add(a: nat, b: nat)
    ensures Pow2(a + b) == Pow2(a) * Pow2(b)
    decreases b
  {
    if b > 0 {
      Pow2Add(a, b - 1);
      assert Pow2(a) * (2 * Pow2(b - 1)) == 2 * (Pow2(a) * Pow2(b - 1));
    }
  }

  lemma Word16()
    ensures Pow2(16) == 65536
  {
    assert Pow2(4) == 16;
    Pow2Add(4, 4);
    Pow2Add(8, 8);
  }

  /** The sizes of the machine words. */
  lemma Words()
    ensures Pow2(32) == 4294967296 && Pow2(64) == 18446744073709551616
  {
    Word16();
    Pow2Add(16, 16);
    Pow2Add(32, 32);
  }
}

/** Bitwise operators on non-negative integers, defined bit by bit. */
module Bits {

  function Pow2(k: nat): (p: nat)
    ensures p > 0
  {
    if k == 0 then 1 else 2 * Pow2(k - 1)
  }

  /** Bit `k` of `w`. */
  predicate Bit(w: nat, k: nat) {
    if k == 0 then w % 2 == 1 else Bit(w / 2, k - 1)
  }

  function Or(a: nat, b: nat): nat {
    if a == 0 then b
    else 2 * Or(a / 2, b / 2) + if a % 2 == 1 || b % 2 == 1 then 1 else 0
  }

  function And(a: nat, b: nat): nat {
    if a == 0 then 0
    else 2 * And(a / 2, b / 2) + if a % 2 == 1 && b % 2 == 1 then 1 else 0
  }

  function Xor(a: nat, b: nat): nat {
    if a == 0 then b
    else 2 * Xor(a / 2, b / 2) + if a % 2 != b % 2 then 1 else 0
  }

  /** `~m` in an `n`-bit word. */
  function Not(m: nat, n: nat): nat
    requires m < Pow2(n)
  {
    Pow2(n) - 1 - m
  }

  lemma Pow2At32()
    ensures Pow2(32) == 0x1_0000_0000
  {
    assert Pow2(8) == 256;
    assert Pow2(16) == 0x1_0000;
    assert Pow2(24) == 0x100_0000;
  }

  lemma {:induction false} Pow2Monotone(i: nat, j: nat)
    requires i <= j
    ensures Pow2(i) <= Pow2(j)
    decreases j
  {
    if i < j {
      Pow2Monotone(i, j - 1);
    }
  }

  lemma {:induction false} ZeroBits(k: nat)
    ensures !Bit(0, k)
  {
    if k > 0 {
      ZeroBits(k - 1);
    }
  }

  lemma {:induction false} BitOr(a: nat, b: nat, k: nat)
    ensures Bit(Or(a, b), k) <==> Bit(a, k) || Bit(b, k)
    decreases k
  {
    ZeroBits(k);
    if k > 0 && a != 0 {
      BitOr(a / 2, b / 2, k - 1);
      assert Or(a, b) / 2 == Or(a / 2, b / 2);
    }
  }

  lemma {:induction false} BitAnd(a: nat, b: nat, k: nat)
    ensures Bit(And(a, b), k) <==> Bit(a, k) && Bit(b, k)
    decreases k
  {
    ZeroBits(k);
    if k > 0 && a != 0 {
      BitAnd(a / 2, b / 2, k - 1);
      assert And(a, b) / 2 == And(a / 2, b / 2);
    }
  }

  lemma {:induction false} BitXor(a: nat, b: nat, k: nat)
    ensures Bit(Xor(a, b), k) <==> Bit(a, k) != Bit(b, k)
    decreases k
  {
    ZeroBits(k);
    if k > 0 && a != 0 {
      BitXor(a / 2, b / 2, k - 1);
      assert Xor(a, b) / 2 == Xor(a / 2, b / 2);
    }
  }

  lemma {:induction false} BitPow2(i: nat, k: nat)
    ensures Bit(Pow2(i), k) <==> i == k
    decreases k
  {
    if i == 0 {
      if k > 0 { ZeroBits(k - 1); }
    } else if k > 0 {
      BitPow2(i - 1, k - 1);
    }
  }

  lemma {:induction false} BitNot(m: nat, n: nat, k: nat)
    requires m < Pow2(n) && k < n
    ensures Bit(Not(m, n), k) <==> !Bit(m, k)
  {
    if k > 0 {
      BitNot(m / 2, n - 1, k - 1);
      assert Not(m, n) / 2 == Not(m / 2, n - 1);
    }
  }

  /** `w & (1 << k)` is the C test for bit `k`. */
  lemma {:induction false} MaskTest(w: nat, k: nat)
    ensures And(w, Pow2(k)) != 0 <==> Bit(w, k)
    decreases k
  {
    if k == 0 {
      if w != 0 { AndZero(w / 2); }
    } else if w == 0 {
      ZeroBits(k);
    } else {
      MaskTest(w / 2, k - 1);
    }
  }

  lemma {:induction false} AndZero(a: nat)
    ensures And(a, 0) == 0
  {
    if a != 0 { AndZero(a / 2); }
  }

  lemma {:induction false} OrBound(a: nat, b: nat, n: nat)
    requires a < Pow2(n) && b < Pow2(n)
    ensures Or(a, b) < Pow2(n)
    decreases n
  {
    if a != 0 { OrBound(a / 2, b / 2, n - 1); }
  }

  lemma {:induction false} XorBound(a: nat, b: nat, n: nat)
    requires a < Pow2(n) && b < Pow2(n)
    ensures Xor(a, b) < Pow2(n)
    decreases n
  {
    if a != 0 { XorBound(a / 2, b / 2, n - 1); }
  }

  lemma {:induction false} AndBound(a: nat, b: nat)
    ensures And(a, b) <= a
    decreases a
  {
    if a != 0 { AndBound(a / 2, b / 2); }
  }

  /** Every bit of `v` is a bit of `w`. */
  ghost predicate Within(v: nat, w: nat) {
    forall k: nat | Bit(v, k) :: Bit(w, k)
  }

  lemma {:induction false} BitIsBelow(v: nat, n: nat, k: nat)
    requires v < Pow2(n) && Bit(v, k)
    ensures k < n
    decreases n
  {
    if n == 0 {
      ZeroBits(k);
    } else if k > 0 {
      BitIsBelow(v / 2, n - 1, k - 1);
    }
  }

  lemma WithinHalves(v: nat, w: nat)
    requires Within(v, w)
    ensures Within(v / 2, w / 2) && (v % 2 == 1 ==> w % 2 == 1)
  {
    assert Bit(v, 0) ==> Bit(w, 0);
    forall k: nat | Bit(v / 2, k)
      ensures Bit(w / 2, k)
    {
      assert Bit(v, k + 1);
      assert Bit(w, k + 1);
    }
  }

  lemma {:induction false} OrWithin(w: nat, v: nat)
    requires Within(v, w)
    ensures Or(w, v) == w
    decreases w
  {
    if w == 0 {
      NoBits(v);
    } else {
      WithinHalves(v, w);
      OrWithin(w / 2, v / 2);
    }
  }

  lemma {:induction false} NoBits(v: nat)
    requires Within(v, 0)
    ensures v == 0
  {
    WithinHalves(v, 0);
    if v != 0 { NoBits(v / 2); }
  }

  /** Or-ing adds nothing exactly when there is nothing to add. */
  lemma OrAddsNothing(w: nat, v: nat)
    ensures Or(w, v) == w <==> Within(v, w)
  {
    if Within(v, w) { OrWithin(w, v); }
    if Or(w, v) == w {
      forall k: nat | Bit(v, k)
        ensures Bit(w, k)
      {
        BitOr(w, v, k);
      }
    }
  }
}

/** The shift-and-add multiplication of the MIPS simulator (machine/mipssim.cc),
    on 32-bit words with explicit wrap-around. */
module Multiplication {
  import opened Words
  import opened Bits

  const W := WORD_LIMIT

  function Negated(x: int32): int32 {
    FromWord((-(x as int)) % W)
  }

  /** Adding the shifted multiplicand bHi:bLo into hi:lo, carry included. */
  method AddIn(hi: word, lo: word, bHi: word, bLo: word) returns (hi': word, lo': word)
    requires hi * W + lo + bHi * W + bLo < W * W
    ensures hi' * W + lo' == (hi * W + lo) + (bHi * W + bLo)
  {
    lo' := (lo + bLo) % W;
    hi' := hi;
    if lo' < bLo {
      hi' := (hi' + 1) % W;
    }
    hi' := (hi' + bHi) % W;
  }

  /** Shifting bHi:bLo left by one. */
  method ShiftLeft(bHi: word, bLo: word) returns (bHi': word, bLo': word)
    requires bHi < W / 2
    ensures bHi' * W + bLo' == 2 * (bHi * W + bLo)
  {
    bHi' := (bHi * 2) % W;
    if bLo >= W / 2 {
      bHi' := bHi' + 1;
    }
    bLo' := (bLo * 2) % W;
  }

  /** The loop over a's bits.  After i rounds hi:lo is b times the low i bits of
      a, bHi:bLo is b shifted by i, and what is left of a is its arithmetic
      shift by i, negative when a was. */
  method MultLoop(a0: int32, b: word) returns (hi: word, lo: word)
    requires a0 != 0
    ensures hi * W + lo == ToWord(a0) * b
  {
    hide ToWord, Pow2;
    var a, bLo, bHi := a0, b, 0;
    hi, lo := 0, 0;
    ghost var p := 1;
    Pow2Steps(0);
    for i := 0 to 32
      invariant p == Pow2(i) && -(W / 2) <= a < W / 2
      invariant 0 <= a0 - a * p < p
      invariant bHi * W + bLo == p * b
      invariant hi * W + lo == (a0 - a * p) * b
    {
      Bounds(i, p, a0 - a * p, b);
      ghost var low := a0 - a * p;
      if a % 2 == 1 {
        hi, lo := AddIn(hi, lo, bHi, bLo);
        if a == 1 {
          NonNegative(a0, p);
          Distribute(low, p, b);
          return;
        }
      }
      bHi, bLo := ShiftLeft(bHi, bLo);
      Halve(a, p, low, b);
      Pow2Steps(i);
      a := a / 2;
      p := 2 * p;
    }
    Pow2At32();
    WholeWord(a0, a, b);
  }

  lemma Pow2Steps(i: nat)
    ensures Pow2(0) == 1 && Pow2(i + 1) == 2 * Pow2(i)
  {
  }

  lemma Monotone(x: nat, y: nat, b: nat)
    requires x <= y
    ensures x * b <= y * b
  {
  }

  lemma Bounds(i: nat, p: nat, low: nat, b: word)
    requires i < 32 && p == Pow2(i) && low < p
    ensures p <= W / 2 && p * b < W * W / 2 && low * b + p * b < W * W
  {
    Pow2Monotone(i, 31);
    Pow2At32();
    Monotone(p, W / 2, b);
    Monotone(low, p, b);
  }

  lemma Distribute(x: int, y: int, b: int)
    ensures x * b + y * b == (x + y) * b
  {
  }

  lemma NonNegative(a0: int32, p: nat)
    requires 0 <= a0 - p < p
    ensures ToWord(a0) == a0 && a0 == (a0 - p) + p
  {
  }

  lemma Halve(a: int, p: nat, low: nat, b: nat)
    requires low < p
    ensures var bit := a % 2;
            && a * p == a / 2 * (2 * p) + bit * p
            && low + bit * p < 2 * p
            && (2 * p) * b == 2 * (p * b)
            && low * b + bit * (p * b) == (low + bit * p) * b
  {
    var h := a / 2;
    assert a == 2 * h + a % 2;
    assert h * (2 * p) == (2 * h) * p;
  }

  lemma WholeWord(a0: int32, a: int, b: nat)
    requires 0 <= a0 - a * W < W
    ensures (a0 - a * W) * b == ToWord(a0) * b
  {
  }

  /** Two's complement of the double word hi:lo. */
  method Complement(hi: word, lo: word) returns (hi': word, lo': word)
    requires hi * W + lo > 0
    ensures hi' * W + lo' == W * W - (hi * W + lo)
  {
    hi' := W - 1 - hi;
    lo' := W - 1 - lo;
    lo' := (lo' + 1) % W;
    if lo' == 0 {
      hi' := (hi' + 1) % W;
    }
  }

  lemma Magnitudes(a: int, b: int, x: nat, y: nat)
    requires a != 0 && b != 0 && x <= W / 2 && y <= W / 2
    requires x == (if a < 0 then -a else a) && y == (if b < 0 then -b else b)
    ensures 0 < x * y <= W / 2 * (W / 2)
    ensures a * b == (if (a < 0) == (b < 0) then x * y else -(x * y))
  {
    Monotone(1, x, y);
    Monotone(x, W / 2, y);
    Monotone(y, W / 2, W / 2);
    SignOfProduct(x, y);
  }

  lemma SignOfProduct(x: int, y: int)
    ensures (-x) * y == -(x * y) && x * (-y) == -(x * y) && (-x) * (-y) == x * y
  {
  }

  lemma MagnitudeOf(a: int32, x: int32)
    requires a != 0 && x == if a < 0 then Negated(a) else a
    ensures x != 0 && ToWord(x) <= W / 2 && ToWord(x) == if a < 0 then -(a as int) else a
  {
  }

  /** Makes both operands positive and computes the sign of the result. */
  method Magnitude(a: int32, b: int32) returns (x: int32, y: int32, negative: bool)
    requires a != 0 && b != 0
    ensures x != 0 && 0 < ToWord(x) * ToWord(y) <= W / 2 * (W / 2)
    ensures a * b == (if negative then -(ToWord(x) * ToWord(y)) else ToWord(x) * ToWord(y))
  {
    hide ToWord, Negated;
    negative := false;
    x, y := a, b;
    if x < 0 {
      negative := !negative;
      x := Negated(x);
    }
    if y < 0 {
      negative := !negative;
      y := Negated(y);
    }
    MagnitudeOf(a, x);
    MagnitudeOf(b, y);
    Magnitudes(a, b, ToWord(x), ToWord(y));
  }

  lemma SignedPositive(h: word, l: word)
    requires h * W + l <= W / 2 * (W / 2)
    ensures FromWord(h) == h
  {
  }

  lemma SignedNegative(h: word, l: word, v: int)
    requires 0 < v <= W / 2 * (W / 2) && h * W + l == W * W - v
    ensures FromWord(h) * W + l == -v
  {
  }

  lemma FromToWord(w: word)
    ensures ToWord(FromWord(w)) == w
  {
  }

  /** hi:lo is the exact 64-bit product, for all operands. */
  method Mult(a: int32, b: int32, signedArith: bool) returns (hi: int32, lo: int32)
    ensures signedArith ==> hi * W + ToWord(lo) == a * b
    ensures !signedArith ==> ToWord(hi) * W + ToWord(lo) == ToWord(a) * ToWord(b)
  {
    if a == 0 || b == 0 {
      return 0, 0;
    }
    hide ToWord, FromWord;
    var x, y, negative := a, b, false;
    if signedArith {
      x, y, negative := Magnitude(a, b);
    }
    var h, l := MultLoop(x, ToWord(y));
    if negative {
      h, l := Complement(h, l);
      SignedNegative(h, l, ToWord(x) * ToWord(y));
    } else if signedArith {
      SignedPositive(h, l);
    }
    FromToWord(h);
    FromToWord(l);
    hi, lo := FromWord(h), FromWord(l);
  }
}

/** The bitmap of userprog/bitmap.cc: 32-bit words holding one bit per disk
    sector, and what allocating and freeing through it does to the bits. */
module BitMaps {
  import opened Words
  import opened Bits

  const BITS_IN_WORD := 32

  /** The first `n` bits stored in `ws`. */
  function BitsOf(ws: seq<word>, n: nat): (b: seq<bool>)
    requires n <= BITS_IN_WORD * |ws|
    ensures |b| == n
  {
    seq(n, i requires 0 <= i < n => Bit(ws[i / BITS_IN_WORD], i % BITS_IN_WORD))
  }

  /** How many of the first `n` bits are clear. */
  function ClearBelow(b: seq<bool>, n: nat): (c: nat)
    requires n <= |b|
    ensures c <= n
  {
    if n == 0 then 0 else ClearBelow(b, n - 1) + if b[n - 1] then 0 else 1
  }

  function NumClear(b: seq<bool>): (c: nat)
    ensures c <= |b|
  {
    ClearBelow(b, |b|)
  }

  /** Index of the first clear bit at or after `from`, -1 when there is none. */
  function FirstClearFrom(b: seq<bool>, from: nat): (r: int)
    requires from <= |b|
    ensures r == -1 ==> forall i | from <= i < |b| :: b[i]
    ensures r != -1 ==> from <= r < |b| && !b[r] && forall i | from <= i < r :: b[i]
    decreases |b| - from
  {
    if from == |b| then -1 else if !b[from] then from else FirstClearFrom(b, from + 1)
  }

  function FirstClear(b: seq<bool>): (r: int)
    ensures r == -1 ==> forall i | 0 <= i < |b| :: b[i]
    ensures r != -1 ==> 0 <= r < |b| && !b[r] && forall i | 0 <= i < r :: b[i]
  {
    FirstClearFrom(b, 0)
  }

  lemma {:induction false} ClearBelowZero(b: seq<bool>, n: nat)
    requires n <= |b|
    ensures ClearBelow(b, n) == 0 <==> forall i | 0 <= i < n :: b[i]
  {
    if n > 0 { ClearBelowZero(b, n - 1); }
  }

  lemma NumClearZero(b: seq<bool>)
    ensures NumClear(b) == 0 <==> FirstClear(b) == -1
  {
    ClearBelowZero(b, |b|);
  }

  lemma {:induction false} ClearBelowMark(b: seq<bool>, k: nat, n: nat)
    requires k < |b| && !b[k] && n <= |b|
    ensures ClearBelow(b[k := true], n) == ClearBelow(b, n) - if k < n then 1 else 0
  {
    if n > 0 { ClearBelowMark(b, k, n - 1); }
  }

  lemma NumClearMark(b: seq<bool>, k: nat)
    requires k < |b| && !b[k]
    ensures NumClear(b[k := true]) == NumClear(b) - 1
  {
    ClearBelowMark(b, k, |b|);
  }

  /** The bits left by `n` successive calls of Find. */
  function AfterTaking(b: seq<bool>, n: nat): (r: seq<bool>)
    requires n <= NumClear(b)
    ensures |r| == |b| && NumClear(r) == NumClear(b) - n
  {
    if n == 0 then b
    else
      var r := AfterTaking(b, n - 1);
      NumClearZero(r); NumClearMark(r, FirstClear(r));
      r[FirstClear(r) := true]
  }

  /** The sectors handed out by `n` successive calls of Find. */
  function Taken(b: seq<bool>, n: nat): (s: seq<int>)
    requires n <= NumClear(b)
    ensures |s| == n
  {
    if n == 0 then [] else Taken(b, n - 1) + [FirstClear(AfterTaking(b, n - 1))]
  }

  /** Exactly the sectors handed out become marked, and everything below the
      last of them is then in use. */
  lemma {:induction false} TakingMarks(b: seq<bool>, n: nat)
    requires n <= NumClear(b)
    ensures forall k | 0 <= k < |b| :: AfterTaking(b, n)[k] <==> b[k] || k in Taken(b, n)
    ensures forall i, k | 0 <= i < n && 0 <= k <= Taken(b, n)[i] < |b| :: AfterTaking(b, n)[k]
  {
    if n > 0 {
      TakingMarks(b, n - 1);
      NumClearZero(AfterTaking(b, n - 1));
    }
  }

  /** The next sector to be handed out, after those of `s`. */
  ghost predicate NextLowest(b: seq<bool>, s: seq<int>, x: int) {
    && 0 <= x < |b| && !b[x]
    && (forall i | 0 <= i < |s| && s[i] < |b| :: s[i] < x)
    && (forall k | 0 <= k < x && !b[k] :: k in s)
  }

  lemma TakesNextLowest(b: seq<bool>, n: nat)
    requires n < NumClear(b)
    ensures NextLowest(b, Taken(b, n), FirstClear(AfterTaking(b, n)))
  {
    TakingMarks(b, n);
    NumClearZero(AfterTaking(b, n));
    hide Taken, FirstClear, ClearBelow;
  }

  /** The sectors handed out are in range, were free, come in strictly
      increasing order, and are the `n` lowest free ones. */
  lemma {:induction false} TakenAreLowestFree(b: seq<bool>, n: nat)
    requires n <= NumClear(b)
    ensures forall i | 0 <= i < n :: 0 <= Taken(b, n)[i] < |b| && !b[Taken(b, n)[i]]
    ensures forall i, j | 0 <= i < j < n :: Taken(b, n)[i] < Taken(b, n)[j]
    ensures forall i, k | 0 <= i < n && 0 <= k < Taken(b, n)[i] && !b[k] :: k in Taken(b, n)
  {
    hide FirstClear, AfterTaking, NumClear;
    if n > 0 {
      TakenAreLowestFree(b, n - 1);
      TakesNextLowest(b, n - 1);
    }
  }

  /** The bits after clearing the sectors of `s` in turn. */
  function GivenBack(b: seq<bool>, s: seq<int>): (r: seq<bool>)
    requires forall i | 0 <= i < |s| :: 0 <= s[i] < |b|
    ensures |r| == |b|
    ensures forall k | 0 <= k < |b| :: r[k] <==> b[k] && k !in s
    decreases |s|
  {
    if s == [] then b
    else
      var i := |s| - 1;
      assert s == s[..i] + [s[i]];
      GivenBack(b, s[..i])[s[i] := false]
  }

  /** Freeing what was allocated restores the bitmap bit for bit. */
  lemma GiveBackRestores(b: seq<bool>, n: nat)
    requires n <= NumClear(b)
    ensures forall i | 0 <= i < |Taken(b, n)| :: 0 <= Taken(b, n)[i] < |AfterTaking(b, n)|
    ensures GivenBack(AfterTaking(b, n), Taken(b, n)) == b
  {
    TakenAreLowestFree(b, n);
    TakingMarks(b, n);
  }

  /** Giving back distinct sectors in use frees exactly that many. */
  lemma {:induction false} GivenBackCount(b: seq<bool>, s: seq<int>)
    requires forall i | 0 <= i < |s| :: 0 <= s[i] < |b| && b[s[i]]
    requires forall i, j | 0 <= i < j < |s| :: s[i] != s[j]
    ensures NumClear(GivenBack(b, s)) == NumClear(b) + |s|
    decreases |s|
  {
    if s != [] {
      var n := |s| - 1;
      GivenBackCount(b, s[..n]);
      var r := GivenBack(b, s[..n]);
      assert s[n] !in s[..n];
      assert r[s[n]] && r[s[n] := false][s[n] := true] == r;
      NumClearMark(r[s[n] := false], s[n]);
    }
  }

  lemma {:induction false} AllClear(b: seq<bool>, n: nat)
    requires n <= |b| && forall i | 0 <= i < n :: !b[i]
    ensures ClearBelow(b, n) == n
  {
    if n > 0 { AllClear(b, n - 1); }
  }

  lemma MarkWord(ws: seq<word>, n: nat, which: nat)
    requires which < n <= BITS_IN_WORD * |ws|
    ensures var m := Pow2(which % BITS_IN_WORD);
            var w := Or(ws[which / BITS_IN_WORD], m);
            w < WORD_LIMIT && BitsOf(ws[which / BITS_IN_WORD := w], n) == BitsOf(ws, n)[which := true]
  {
    var c, r := which / BITS_IN_WORD, which % BITS_IN_WORD;
    Pow2At32();
    Pow2Monotone(r + 1, 32);
    OrBound(ws[c], Pow2(r), 32);
    forall i | 0 <= i < n && i / BITS_IN_WORD == c
      ensures Bit(Or(ws[c], Pow2(r)), i % BITS_IN_WORD) <==> BitsOf(ws, n)[which := true][i]
    {
      BitOr(ws[c], Pow2(r), i % BITS_IN_WORD);
      BitPow2(r, i % BITS_IN_WORD);
    }
  }

  lemma ClearWord(ws: seq<word>, n: nat, which: nat)
    requires which < n <= BITS_IN_WORD * |ws|
    ensures var m := Pow2(which % BITS_IN_WORD);
            m < Pow2(BITS_IN_WORD) &&
            var w := And(ws[which / BITS_IN_WORD], Not(m, BITS_IN_WORD));
            w < WORD_LIMIT && BitsOf(ws[which / BITS_IN_WORD := w], n) == BitsOf(ws, n)[which := false]
  {
    var c, r := which / BITS_IN_WORD, which % BITS_IN_WORD;
    Pow2Monotone(r + 1, 32);
    var m := Pow2(r);
    AndBound(ws[c], Not(m, 32));
    forall i | 0 <= i < n && i / BITS_IN_WORD == c
      ensures Bit(And(ws[c], Not(m, 32)), i % BITS_IN_WORD) <==> BitsOf(ws, n)[which := false][i]
    {
      BitAnd(ws[c], Not(m, 32), i % BITS_IN_WORD);
      BitNot(m, 32, i % BITS_IN_WORD);
      BitPow2(r, i % BITS_IN_WORD);
    }
  }

  class BitMap {
    const numBits: nat
    const words: array<word>

    ghost predicate Valid()
      reads this
    {
      words.Length == DivRoundUp(numBits, BITS_IN_WORD)
    }

    ghost function Bits(): (b: seq<bool>)
      requires Valid()
      reads this, words
      ensures |b| == numBits
    {
      BitsOf(words[..], numBits)
    }

    /** Fresh words hold garbage; every bit in use is cleared one by one. */
    constructor (nitems: nat)
      ensures Valid() && fresh(words) && numBits == nitems
      ensures Bits() == seq(nitems, _ => false)
    {
      numBits := nitems;
      words := new word[DivRoundUp(nitems, BITS_IN_WORD)];
      new;
      for i := 0 to nitems
        invariant forall k | 0 <= k < i :: !Bits()[k]
      {
        Clear(i);
      }
    }

    method Mark(which: int)
      requires Valid()
      requires 0 <= which < numBits
      modifies words
      ensures Bits() == old(Bits())[which := true]
    {
      MarkWord(words[..], numBits, which);
      ghost var was := words[..];
      words[which / BITS_IN_WORD] := Or(words[which / BITS_IN_WORD], Pow2(which % BITS_IN_WORD));
      assert words[..] == was[which / BITS_IN_WORD := words[which / BITS_IN_WORD]];
    }

    method Clear(which: int)
      requires Valid()
      requires 0 <= which < numBits
      modifies words
      ensures Bits() == old(Bits())[which := false]
    {
      ClearWord(words[..], numBits, which);
      ghost var was := words[..];
      words[which / BITS_IN_WORD] :=
        And(words[which / BITS_IN_WORD], Not(Pow2(which % BITS_IN_WORD), BITS_IN_WORD));
      assert words[..] == was[which / BITS_IN_WORD := words[which / BITS_IN_WORD]];
    }

    method Test(which: int) returns (on: bool)
      requires Valid()
      requires 0 <= which < numBits
      ensures on == Bits()[which]
    {
      MaskTest(words[which / BITS_IN_WORD], which % BITS_IN_WORD);
      on := And(words[which / BITS_IN_WORD], Pow2(which % BITS_IN_WORD)) != 0;
    }

    method Find() returns (r: int)
      requires Valid()
      modifies words
      ensures r == FirstClear(old(Bits()))
      ensures Bits() == if r == -1 then old(Bits()) else old(Bits())[r := true]
    {
      for i := 0 to numBits
        invariant Bits() == old(Bits())
        invariant forall k | 0 <= k < i :: Bits()[k]
      {
        var on := Test(i);
        if !on {
          Mark(i);
          return i;
        }
      }
      return -1;
    }

    method CountClear() returns (count: int)
      requires Valid()
      ensures count == NumClear(Bits())
    {
      count := 0;
      for i := 0 to numBits
        invariant count == ClearBelow(Bits(), i)
      {
        var on := Test(i);
        if !on { count := count + 1; }
      }
    }
  }
}

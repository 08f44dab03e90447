/** Single bits of 64-bit words, and the searches for the lowest and the highest
    bit set that the hardware offers as count-trailing and count-leading zeros. */
module Bits {

  const ALL: bv64 := 0xFFFF_FFFF_FFFF_FFFF

  function Octal(d: nat): (p: bv64)
    requires d < 8
    ensures p < 8
  {
    if d == 0 then 0 else if d == 1 then 1 else if d == 2 then 2 else if d == 3 then 3
    else if d == 4 then 4 else if d == 5 then 5 else if d == 6 then 6 else 7
  }

  /** The bit number `i` as a shift amount. */
  function Shift(i: nat): (p: bv64)
    requires i < 64
    ensures p < 64
  {
    (Octal(i / 8) << 3) | Octal(i % 8)
  }

  lemma OctalOrder(c: nat, d: nat)
    requires c < d < 8
    ensures Octal(c) < Octal(d)
  {
  }

  lemma ShiftOrder(i: nat, j: nat)
    requires i < j < 64
    ensures Shift(i) < Shift(j)
  {
    if i / 8 < j / 8 {
      OctalOrder(i / 8, j / 8);
    } else {
      OctalOrder(i % 8, j % 8);
    }
  }

  lemma ShiftBelow63(i: nat)
    requires i < 63
    ensures Shift(i) < 63
  {
    ShiftOrder(i, 63);
    assert Shift(63) == 63;
  }

  lemma ShiftInjective(i: nat, j: nat)
    requires i < 64 && j < 64
    ensures i == j <==> Shift(i) == Shift(j)
    ensures i < j <==> Shift(i) < Shift(j)
  {
    if i < j {
      ShiftOrder(i, j);
    } else if j < i {
      ShiftOrder(j, i);
    }
  }

  // ----- the operations on words, and what they do to the bit at a shift amount

  predicate BitAt(w: bv64, p: bv64)
    requires p < 64
  {
    (w >> p) & 1 == 1
  }

  function OneAt(p: bv64): bv64
    requires p < 64
  {
    (1 as bv64) << p
  }

  function Or(w: bv64, v: bv64): bv64 { w | v }

  function And(w: bv64, v: bv64): bv64 { w & v }

  function Not(w: bv64): bv64 { !w }

  /** The bits strictly above the one at `p`, and strictly below it. */
  function AboveAt(p: bv64): bv64
    requires p < 63
  {
    ALL << (p + 1)
  }

  function BelowAt(p: bv64): bv64
    requires p < 64
  {
    ((1 as bv64) << p) - 1
  }

  function Next(p: bv64): (q: bv64)
    requires p < 63
    ensures q < 64
  {
    p + 1
  }

  /** Nothing from the bit at `p` on. */
  predicate EmptyFrom(w: bv64, p: bv64)
    requires p < 64
  {
    w >> p == 0
  }

  lemma TestBitAt(w: bv64, p: bv64)
    requires p < 64
    ensures (And(w, OneAt(p)) != 0) == BitAt(w, p)
  {
  }

  lemma OneBitAt(p: bv64, q: bv64)
    requires p < 64 && q < 64
    ensures BitAt(OneAt(p), q) == (p == q)
  {
  }

  lemma OrBitAt(w: bv64, v: bv64, q: bv64)
    requires q < 64
    ensures BitAt(Or(w, v), q) == (BitAt(w, q) || BitAt(v, q))
  {
    hide BitAt;
    OrAt(w, v, q);
  }

  lemma OrAt(w: bv64, v: bv64, q: bv64)
    requires q < 64
    ensures BitAt(w | v, q) == (BitAt(w, q) || BitAt(v, q))
  {
  }

  lemma AndBitAt(w: bv64, v: bv64, q: bv64)
    requires q < 64
    ensures BitAt(And(w, v), q) == (BitAt(w, q) && BitAt(v, q))
  {
    hide BitAt;
    AndAt(w, v, q);
  }

  lemma AndAt(w: bv64, v: bv64, q: bv64)
    requires q < 64
    ensures BitAt(w & v, q) == (BitAt(w, q) && BitAt(v, q))
  {
  }

  lemma NotBitAt(w: bv64, q: bv64)
    requires q < 64
    ensures BitAt(Not(w), q) == !BitAt(w, q)
  {
  }

  lemma AboveMaskAt(p: bv64, q: bv64)
    requires p < 63 && q < 64
    ensures BitAt(AboveAt(p), q) == (p < q)
  {
  }

  lemma BelowMaskInside(p: bv64, q: bv64)
    requires q < p < 64
    ensures BitAt(BelowAt(p), q)
  {
  }

  lemma BelowMaskOutside(p: bv64, q: bv64)
    requires p <= q < 64
    ensures !BitAt(BelowAt(p), q)
  {
  }

  lemma ZeroAt(w: bv64, p: bv64)
    requires p < 64
    ensures w == 0 ==> !BitAt(w, p)
  {
  }

  lemma DropZeroAt(w: bv64, p: bv64)
    requires p < 63 && !BitAt(w, p) && EmptyFrom(w, Next(p))
    ensures EmptyFrom(w, p)
  {
  }

  lemma TopZeroAt(w: bv64)
    requires !BitAt(w, 63)
    ensures EmptyFrom(w, 63)
  {
  }

  lemma EmptyIsZero(w: bv64)
    ensures EmptyFrom(w, 0) <==> w == 0
  {
  }

  // ----- bits by number

  predicate Bit(w: bv64, i: nat)
    requires i < 64
  {
    BitAt(w, Shift(i))
  }

  function One(i: nat): bv64
    requires i < 64
  {
    OneAt(Shift(i))
  }

  function Set(w: bv64, i: nat): bv64
    requires i < 64
  {
    Or(w, One(i))
  }

  function Clear(w: bv64, i: nat): bv64
    requires i < 64
  {
    And(w, Not(One(i)))
  }

  /** The mask test. */
  predicate Tested(w: bv64, i: nat)
    requires i < 64
  {
    And(w, One(i)) != 0
  }

  /** The bits strictly above `i`. */
  function Above(i: nat): bv64
    requires i < 64
  {
    if i >= 63 then 0 else ShiftBelow63(i); AboveAt(Shift(i))
  }

  /** The bits strictly below `i`. */
  function Below(i: nat): bv64
    requires i < 64
  {
    if i == 0 then 0 else BelowAt(Shift(i))
  }

  lemma TestBit(w: bv64, i: nat)
    requires i < 64
    ensures Tested(w, i) == Bit(w, i)
  {
    hide BitAt, Shift, OneAt, And;
    TestBitAt(w, Shift(i));
  }

  lemma OneBit(i: nat, j: nat)
    requires i < 64 && j < 64
    ensures Bit(One(i), j) == (i == j)
  {
    hide BitAt, Shift, OneAt;
    ShiftInjective(i, j);
    OneBitAt(Shift(i), Shift(j));
  }

  lemma SetBit(w: bv64, i: nat, j: nat)
    requires i < 64 && j < 64
    ensures Bit(Set(w, i), j) == (i == j || Bit(w, j))
  {
    hide BitAt, Shift, One, Or;
    OneBit(i, j);
    OrBitAt(w, One(i), Shift(j));
  }

  lemma ClearBit(w: bv64, i: nat, j: nat)
    requires i < 64 && j < 64
    ensures Bit(Clear(w, i), j) == (i != j && Bit(w, j))
  {
    hide BitAt, Shift, One, And, Not;
    OneBit(i, j);
    NotBitAt(One(i), Shift(j));
    AndBitAt(w, Not(One(i)), Shift(j));
  }

  lemma AboveMask(i: nat, j: nat)
    requires i < 64 && j < 64
    ensures Bit(Above(i), j) == (i < j)
  {
    hide BitAt, Shift, AboveAt;
    if i >= 63 {
      ZeroAt(0, Shift(j));
    } else {
      ShiftInjective(i, j);
      ShiftBelow63(i);
      AboveMaskAt(Shift(i), Shift(j));
    }
  }

  lemma BelowMask(i: nat, j: nat)
    requires i < 64 && j < 64
    ensures Bit(Below(i), j) == (j < i)
  {
    hide BitAt, Shift, BelowAt;
    if i == 0 {
      ZeroAt(0, Shift(j));
    } else {
      ShiftInjective(i, j);
      if j < i {
        BelowMaskInside(Shift(i), Shift(j));
      } else {
        BelowMaskOutside(Shift(i), Shift(j));
      }
    }
  }

  lemma MaskedBit(w: bv64, mask: bv64, i: nat)
    requires i < 64
    ensures Bit(And(w, mask), i) == (Bit(w, i) && Bit(mask, i))
  {
    hide BitAt, Shift, And;
    AndBitAt(w, mask, Shift(i));
  }

  lemma ShiftNext(i: nat)
    requires i < 63
    ensures Shift(i) < 63 && Shift(i + 1) == Next(Shift(i))
  {
    ShiftBelow63(i);
    if i % 8 < 7 {
      assert (i + 1) / 8 == i / 8 && (i + 1) % 8 == i % 8 + 1;
    } else {
      assert (i + 1) / 8 == i / 8 + 1 && (i + 1) % 8 == 0;
    }
  }

  lemma ShiftEnds()
    ensures Shift(0) == 0 && Shift(63) == 63
  {
  }

  lemma {:induction false} ZeroFrom(w: bv64, k: nat)
    requires k < 64 && forall i :: k <= i < 64 ==> !Bit(w, i)
    ensures EmptyFrom(w, Shift(k))
    decreases 64 - k
  {
    hide BitAt, Shift, EmptyFrom, Next;
    assert !Bit(w, k);
    if k == 63 {
      ShiftEnds();
      TopZeroAt(w);
    } else {
      ZeroFrom(w, k + 1);
      ShiftNext(k);
      DropZeroAt(w, Shift(k));
    }
  }

  /** Only zero has no bit set. */
  lemma SomeBit(w: bv64)
    ensures w != 0 <==> exists i :: 0 <= i < 64 && Bit(w, i)
  {
    hide BitAt, Shift, EmptyFrom;
    if forall i :: 0 <= i < 64 ==> !Bit(w, i) {
      ZeroFrom(w, 0);
      ShiftEnds();
      EmptyIsZero(w);
    } else {
      var i :| 0 <= i < 64 && Bit(w, i);
      ZeroAt(w, Shift(i));
    }
  }

  // ----- searching a word

  /** Number of trailing zeros, of a word that is not zero from bit `from` on. */
  function Lowest(w: bv64, from: nat := 0): (r: nat)
    requires from < 64
    ensures from <= r < 64
    decreases 64 - from
  {
    if Bit(w, from) || from == 63 then from else Lowest(w, from + 1)
  }

  lemma {:induction false} LowestIs(w: bv64, from: nat)
    requires from < 64 && exists i :: from <= i < 64 && Bit(w, i)
    ensures var r := Lowest(w, from); Bit(w, r) && forall i :: from <= i < r ==> !Bit(w, i)
    decreases 64 - from
  {
    hide Bit;
    if !Bit(w, from) && from < 63 {
      LowestIs(w, from + 1);
    }
  }

  /** Sixty-three less the number of leading zeros. */
  function Highest(w: bv64, from: nat := 63): (r: nat)
    requires from < 64
    ensures r <= from
  {
    if Bit(w, from) || from == 0 then from else Highest(w, from - 1)
  }

  lemma {:induction false} HighestIs(w: bv64, from: nat)
    requires from < 64 && exists i :: 0 <= i <= from && Bit(w, i)
    ensures var r := Highest(w, from); Bit(w, r) && forall i :: r < i <= from ==> !Bit(w, i)
  {
    hide Bit;
    if !Bit(w, from) && from > 0 {
      HighestIs(w, from - 1);
    }
  }
}

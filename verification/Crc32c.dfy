/** CRC-32C, the Castagnoli checksum of section 12.1 of RFC 3720. */
module Crc32c {
  import opened Types
  import opened ByteBits

  /** The Castagnoli polynomial, lowest power in the highest bit. */
  const POLYNOMIAL: bv32 := 0x82F6_3B78

  function Xor(a: bv32, b: bv32): bv32 { a ^ b }

  function Half(a: bv32): bv32 { a >> 1 }

  predicate Odd(a: bv32) { a & 1 == 1 }

  function Wide(b: bv8): bv32 { b as bv32 }

  // ----- the definition: polynomial division, one message bit at a time

  /** Divides one bit further. */
  function Divide(crc: bv32): bv32 {
    if Odd(crc) then Xor(Half(crc), POLYNOMIAL) else Half(crc)
  }

  /** Takes in one message bit. */
  function Feed(crc: bv32, bit: bool): bv32 {
    Divide(Xor(crc, if bit then 1 else 0))
  }

  function FeedBits(crc: bv32, bits: seq<bool>): bv32 {
    if bits == [] then crc else Feed(FeedBits(crc, bits[..|bits| - 1]), bits[|bits| - 1])
  }

  /** The message bits, each byte lowest bit first. */
  function FeedBytes(crc: bv32, data: seq<U8>): bv32 {
    if data == [] then crc
    else FeedBits(FeedBytes(crc, data[..|data| - 1]), Unpack(ToBits(data[|data| - 1])))
  }

  /** The checksum continued from `seed`. */
  function Crc(data: seq<U8>, seed: bv32): bv32 {
    Flip(FeedBytes(Flip(seed), data))
  }

  function Flip(a: bv32): bv32 { !a }

  // ----- exclusive or

  lemma XorSwap(p: bv32, q: bv32, r: bv32, s: bv32)
    ensures Xor(Xor(p, q), Xor(r, s)) == Xor(Xor(p, r), Xor(q, s))
  {
    hide Xor;
    XorAssoc(Xor(p, q), r, s);
    XorAssoc(p, q, r);
    XorCommutes(q, r);
    XorAssoc(p, r, q);
    XorAssoc(Xor(p, r), q, s);
  }

  lemma XorAssoc(a: bv32, b: bv32, c: bv32)
    ensures Xor(Xor(a, b), c) == Xor(a, Xor(b, c))
  {
  }

  lemma XorCommutes(a: bv32, b: bv32)
    ensures Xor(a, b) == Xor(b, a)
  {
  }

  lemma XorZero(a: bv32)
    ensures Xor(a, 0) == a && Xor(0, a) == a && Xor(a, a) == 0
  {
  }

  lemma XorCancels(a: bv32, b: bv32)
    ensures Xor(Xor(a, b), b) == a
  {
  }

  lemma HalfXor(a: bv32, b: bv32)
    ensures Half(Xor(a, b)) == Xor(Half(a), Half(b))
  {
  }

  lemma OddXor(a: bv32, b: bv32)
    ensures Odd(Xor(a, b)) <==> Odd(a) != Odd(b)
  {
    LowBit(a);
    LowBit(b);
    LowXor(a, b);
  }

  lemma LowXor(a: bv32, b: bv32)
    ensures (a ^ b) & 1 == (a & 1) ^ (b & 1)
  {
  }

  lemma LowBit(a: bv32)
    ensures a & 1 == 0 || a & 1 == 1
  {
  }

  // ----- division is linear and can be undone

  lemma DivideLinear(a: bv32, b: bv32)
    ensures Divide(Xor(a, b)) == Xor(Divide(a), Divide(b))
  {
    hide Xor, Half, Odd;
    HalfXor(a, b);
    OddXor(a, b);
    var p, q := if Odd(a) then POLYNOMIAL else 0, if Odd(b) then POLYNOMIAL else 0;
    XorSwap(Half(a), p, Half(b), q);
    XorZero(Half(a));
    XorZero(Half(b));
    XorZero(POLYNOMIAL);
    XorZero(Xor(Half(a), Half(b)));
    XorZero(0);
  }

  predicate Top(a: bv32) { a & 0x8000_0000 != 0 }

  function Double(a: bv32): bv32 { a << 1 }

  /** Takes a division step back. */
  function Undivide(crc: bv32): bv32 {
    if Top(crc) then Xor(Double(Xor(crc, POLYNOMIAL)), 1) else Double(crc)
  }

  lemma UndivideDivide(x: bv32)
    ensures Undivide(Divide(x)) == x
  {
    hide Xor, Half, Odd, Double, Top;
    HalvedTop(x);
    XorCancels(Half(x), POLYNOMIAL);
    DoubleHalf(x);
  }

  lemma HalvedTop(x: bv32)
    ensures !Top(Half(x)) && Top(Xor(Half(x), POLYNOMIAL))
  {
  }

  lemma DoubleHalf(x: bv32)
    ensures if Odd(x) then Xor(Double(Half(x)), 1) == x else Double(Half(x)) == x
  {
    LowBit(x);
  }

  lemma DivideUndivide(x: bv32)
    ensures Divide(Undivide(x)) == x
  {
    hide Xor, Half, Odd, Double, Top;
    DoubledOdd(x);
    DoubledOdd(Xor(x, POLYNOMIAL));
    FlippedTop(x);
    XorCancels(x, POLYNOMIAL);
  }

  lemma DoubledOdd(x: bv32)
    ensures !Odd(Double(x)) && Odd(Xor(Double(x), 1))
    ensures !Top(x) ==> Half(Double(x)) == x && Half(Xor(Double(x), 1)) == x
  {
    DoubledLow(x);
    if !Top(x) {
      DoubledHalf(x);
    }
  }

  lemma DoubledLow(x: bv32)
    ensures (x << 1) & 1 == 0 && ((x << 1) ^ 1) & 1 == 1
  {
  }

  lemma DoubledHalf(x: bv32)
    requires x & 0x8000_0000 == 0
    ensures (x << 1) >> 1 == x && ((x << 1) ^ 1) >> 1 == x
  {
  }

  lemma FlippedTop(x: bv32)
    ensures Top(x) ==> !Top(Xor(x, POLYNOMIAL))
  {
  }

  // ----- many steps at once

  function DivideBy(crc: bv32, k: nat): bv32 {
    if k == 0 then crc else Divide(DivideBy(crc, k - 1))
  }

  function UndivideBy(crc: bv32, k: nat): bv32
    decreases k
  {
    if k == 0 then crc else UndivideBy(Undivide(crc), k - 1)
  }

  lemma {:induction false} DivideByLinear(a: bv32, b: bv32, k: nat)
    ensures DivideBy(Xor(a, b), k) == Xor(DivideBy(a, k), DivideBy(b, k))
  {
    hide Divide, Xor;
    if k > 0 {
      DivideByLinear(a, b, k - 1);
      DivideLinear(DivideBy(a, k - 1), DivideBy(b, k - 1));
    }
  }

  lemma {:induction false} DivideByAgain(x: bv32, j: nat, k: nat)
    ensures DivideBy(DivideBy(x, j), k) == DivideBy(x, j + k)
  {
    hide Divide;
    if k > 0 {
      DivideByAgain(x, j, k - 1);
    }
  }

  /** Any number of divisions of the register is a bijection. */
  lemma {:induction false} DivideByBijective(x: bv32, k: nat)
    ensures UndivideBy(DivideBy(x, k), k) == x && DivideBy(UndivideBy(x, k), k) == x
    decreases k
  {
    hide Divide, Undivide;
    if k > 0 {
      DivideByBijective(x, k - 1);
      UndivideDivide(DivideBy(x, k - 1));
      DivideByBijective(Undivide(x), k - 1);
      DivideUndivide(x);
    }
  }

  // ----- a byte at a time

  function Unit(i: nat): bv32
    requires i < 8
  {
    match i
    case 0 => 1
    case 1 => 2
    case 2 => 4
    case 3 => 8
    case 4 => 16
    case 5 => 32
    case 6 => 64
    case _ => 128
  }

  lemma DivideUnit(i: nat)
    requires i < 8
    ensures Divide(0) == 0 && (i > 0 ==> Divide(Unit(i)) == Unit(i - 1))
  {
  }

  lemma {:induction false} DivideUnits(i: nat)
    requires i < 8
    ensures DivideBy(0, i) == 0 && DivideBy(Unit(i), i) == 1
  {
    hide Divide, Unit;
    DivideUnit(i);
    if i > 0 {
      DivideUnits(i - 1);
      DivideByAgain(Unit(i), 1, i - 1);
      assert DivideBy(Unit(i), 0) == Unit(i);
    } else {
      UnitZero();
    }
  }

  lemma UnitZero()
    ensures Unit(0) == 1
  {
  }

  function Place(bit: bool, i: nat): bv32
    requires i < 8
  {
    if bit then Unit(i) else 0
  }

  /** The first `n` bits, each at its own place. */
  function Gathered(bits: seq<bool>, n: nat): bv32
    requires n <= |bits| <= 8
  {
    if n == 0 then 0 else Xor(Gathered(bits, n - 1), Place(bits[n - 1], n - 1))
  }

  /** Bits fed one by one may as well be added at once and then divided. */
  lemma {:induction false} FeedGathered(crc: bv32, bits: seq<bool>, n: nat)
    requires n <= |bits| <= 8
    ensures FeedBits(crc, bits[..n]) == DivideBy(Xor(crc, Gathered(bits, n)), n)
  {
    hide Divide, Xor, Unit;
    if n == 0 {
      XorZero(crc);
    } else {
      var i, x := n - 1, Xor(crc, Gathered(bits, n - 1));
      assert bits[..n][..i] == bits[..i];
      FeedGathered(crc, bits, i);
      DivideByLinear(x, Place(bits[i], i), i);
      DivideUnits(i);
      XorAssoc(crc, Gathered(bits, i), Place(bits[i], i));
    }
  }

  lemma GatheredByte(b: bv8)
    ensures Gathered(Unpack(b), 8) == Wide(b)
  {
    hide Xor, Unpack, Unit, Wide;
    var d := Unpack(b);
    var g1 := Xor(0, Place(d[0], 0));
    assert Gathered(d, 0) == 0 && Gathered(d, 1) == g1;
    var g2 := Xor(g1, Place(d[1], 1));
    assert Gathered(d, 2) == g2;
    var g3 := Xor(g2, Place(d[2], 2));
    assert Gathered(d, 3) == g3;
    var g4 := Xor(g3, Place(d[3], 3));
    assert Gathered(d, 4) == g4;
    var g5 := Xor(g4, Place(d[4], 4));
    assert Gathered(d, 5) == g5;
    var g6 := Xor(g5, Place(d[5], 5));
    assert Gathered(d, 6) == g6;
    var g7 := Xor(g6, Place(d[6], 6));
    assert Gathered(d, 7) == g7;
    assert Gathered(d, 8) == Xor(g7, Place(d[7], 7));
    WideBits(b);
  }

  lemma WideBits(b: bv8)
    ensures var d := Unpack(b);
            Xor(Xor(Xor(Xor(Xor(Xor(Xor(Xor(0, Place(d[0], 0)), Place(d[1], 1)), Place(d[2], 2)), Place(d[3], 3)),
                            Place(d[4], 4)), Place(d[5], 5)), Place(d[6], 6)), Place(d[7], 7)) == Wide(b)
  {
  }

  /** A whole byte: added to the low end of the register, then eight divisions. */
  lemma FeedByte(crc: bv32, b: bv8)
    ensures FeedBits(crc, Unpack(b)) == DivideBy(Xor(crc, Wide(b)), 8)
  {
    hide Divide, Xor, Unpack, Wide, FeedBits, Gathered;
    var d := Unpack(b);
    assert d[..8] == d;
    FeedGathered(crc, d, 8);
    GatheredByte(b);
  }

  // ----- the table-driven form

  function LowByte(x: bv32): bv8 { (x & 0xFF) as bv8 }

  function Shift8(x: bv32): bv32 { x >> 8 }

  function HighPart(x: bv32): bv32 { x & 0xFFFF_FF00 }

  lemma DivideHigh(x: bv32)
    requires LowByte(x) == 0
    ensures DivideBy(x, 8) == Shift8(x)
  {
    assert x & 0xFF == 0;
    var x1 := x >> 1;
    assert x & 1 == 0 && DivideBy(x, 0) == x && DivideBy(x, 1) == x1;
    var x2 := x >> 2;
    assert x1 & 1 == 0 && DivideBy(x, 2) == x2;
    var x3 := x >> 3;
    assert x2 & 1 == 0 && DivideBy(x, 3) == x3;
    var x4 := x >> 4;
    assert x3 & 1 == 0 && DivideBy(x, 4) == x4;
    var x5 := x >> 5;
    assert x4 & 1 == 0 && DivideBy(x, 5) == x5;
    var x6 := x >> 6;
    assert x5 & 1 == 0 && DivideBy(x, 6) == x6;
    var x7 := x >> 7;
    assert x6 & 1 == 0 && DivideBy(x, 7) == x7;
    assert x7 & 1 == 0 && DivideBy(x, 8) == x >> 8;
  }

  lemma SplitLow(x: bv32)
    ensures x == Xor(Wide(LowByte(x)), HighPart(x))
    ensures LowByte(HighPart(x)) == 0 && Shift8(HighPart(x)) == Shift8(x)
  {
  }

  lemma ShiftPastByte(crc: bv32, b: bv8)
    ensures Shift8(Xor(crc, Wide(b))) == Shift8(crc)
  {
  }

  /** The low byte looked up and the rest shifted down is the same as eight divisions. */
  lemma TableStep(crc: bv32, b: bv8)
    ensures var x := Xor(crc, Wide(b));
            Xor(DivideBy(Wide(LowByte(x)), 8), Shift8(crc)) == DivideBy(x, 8)
  {
    hide Xor, Wide, LowByte, Shift8, HighPart, DivideBy;
    var x := Xor(crc, Wide(b));
    SplitLow(x);
    DivideByLinear(Wide(LowByte(x)), HighPart(x), 8);
    DivideHigh(HighPart(x));
    ShiftPastByte(crc, b);
  }

  ghost predicate IsTable(table: seq<bv32>) {
    |table| == 256 && forall i :: 0 <= i < 256 ==> table[i] == DivideBy(Wide(ToBits(i)), 8)
  }

  method MakeTable() returns (table: seq<bv32>)
    ensures IsTable(table)
  {
    hide DivideBy, Wide, ToBits, Divide;
    table := [];
    for i := 0 to 256
      invariant |table| == i && forall j :: 0 <= j < i ==> table[j] == DivideBy(Wide(ToBits(j)), 8)
    {
      var value := Wide(ToBits(i));
      Undivided(value);
      for bit := 0 to 8
        invariant value == DivideBy(Wide(ToBits(i)), bit)
      {
        DividedOnce(Wide(ToBits(i)), bit);
        value := if Odd(value) then Xor(Half(value), POLYNOMIAL) else Half(value);
      }
      table := table + [value];
    }
  }

  lemma Undivided(x: bv32)
    ensures DivideBy(x, 0) == x
  {
  }

  lemma DividedOnce(x: bv32, k: nat)
    ensures var y := DivideBy(x, k);
            DivideBy(x, k + 1) == if Odd(y) then Xor(Half(y), POLYNOMIAL) else Half(y)
  {
  }

  /** The table-driven loop computes the bit-at-a-time division. */
  method Checksum(table: seq<bv32>, data: seq<U8>, seed: bv32) returns (crc: bv32)
    requires IsTable(table)
    ensures crc == Crc(data, seed)
  {
    hide DivideBy, Wide, ToBits, FromBits, Xor, LowByte, Shift8, FeedBits, Unpack, Flip;
    crc := Flip(seed);
    for i := 0 to |data|
      invariant crc == FeedBytes(Flip(seed), data[..i])
    {
      var b := ToBits(data[i]);
      var index := FromBits(LowByte(Xor(crc, Wide(b))));
      ToFromBits(LowByte(Xor(crc, Wide(b))));
      TableStep(crc, b);
      FeedByte(crc, b);
      assert data[..i + 1][..i] == data[..i];
      crc := Xor(table[index], Shift8(crc));
    }
    assert data[..|data|] == data;
    crc := Flip(crc);
  }

  // ----- what the checksum catches

  lemma {:induction false} FeedConcat(crc: bv32, a: seq<U8>, b: seq<U8>)
    ensures FeedBytes(crc, a + b) == FeedBytes(FeedBytes(crc, a), b)
  {
    hide FeedBits, ToBits, Unpack;
    if b == [] {
      assert a + b == a;
    } else {
      assert (a + b)[..|a + b| - 1] == a + b[..|b| - 1];
      FeedConcat(crc, a, b[..|b| - 1]);
    }
  }

  /** Different registers stay different whatever bytes follow. */
  lemma {:induction false} FeedInjective(c: bv32, d: bv32, data: seq<U8>)
    requires FeedBytes(c, data) == FeedBytes(d, data)
    ensures c == d
  {
    hide FeedBits, ToBits, Unpack, DivideBy, Xor, Wide, UndivideBy;
    if data != [] {
      var prefix, b := data[..|data| - 1], ToBits(data[|data| - 1]);
      var x, y := FeedBytes(c, prefix), FeedBytes(d, prefix);
      FeedByte(x, b);
      FeedByte(y, b);
      DivideByBijective(Xor(x, Wide(b)), 8);
      DivideByBijective(Xor(y, Wide(b)), 8);
      XorCancels(x, Wide(b));
      XorCancels(y, Wide(b));
      FeedInjective(c, d, prefix);
    }
  }

  function Lifted(b: bv8, k: nat): bv32
    requires k < 4
  {
    match k
    case 0 => b as bv32
    case 1 => (b as bv32) << 8
    case 2 => (b as bv32) << 16
    case _ => (b as bv32) << 24
  }

  lemma LiftedDown(b: bv8, k: nat)
    requires k < 4
    ensures Lifted(b, 0) == Wide(b)
    ensures k > 0 ==> LowByte(Lifted(b, k)) == 0 && Shift8(Lifted(b, k)) == Lifted(b, k - 1)
  {
  }

  lemma {:induction false} DivideLifted(b: bv8, k: nat)
    requires k < 4
    ensures DivideBy(Lifted(b, k), 8 * k) == Wide(b)
  {
    hide Lifted, Wide, LowByte, Shift8, Divide;
    LiftedDown(b, k);
    if k > 0 {
      DivideLifted(b, k - 1);
      DivideHigh(Lifted(b, k));
      DivideByAgain(Lifted(b, k), 8, 8 * (k - 1));
    }
  }

  /** Up to four bytes as one word. */
  function Word(w: seq<U8>): bv32
    requires |w| <= 4
  {
    if w == [] then 0 else Xor(Word(w[..|w| - 1]), Lifted(ToBits(w[|w| - 1]), |w| - 1))
  }

  lemma {:induction false} FeedWord(crc: bv32, w: seq<U8>)
    requires |w| <= 4
    ensures FeedBytes(crc, w) == DivideBy(Xor(crc, Word(w)), 8 * |w|)
  {
    hide FeedBits, ToBits, Unpack, Xor, Wide, Lifted, Divide;
    if w == [] {
      XorZero(crc);
    } else {
      var n, prefix, b := |w| - 1, w[..|w| - 1], ToBits(w[|w| - 1]);
      FeedWord(crc, prefix);
      var x := Xor(crc, Word(prefix));
      FeedByte(FeedBytes(crc, prefix), b);
      DivideLifted(b, n);
      DivideByLinear(x, Lifted(b, n), 8 * n);
      XorAssoc(crc, Word(prefix), Lifted(b, n));
      DivideByAgain(Xor(crc, Word(w)), 8 * n, 8);
    }
  }

  lemma {:induction false} WordInjective(v: seq<U8>, w: seq<U8>)
    requires |v| == |w| <= 4 && Word(v) == Word(w)
    ensures v == w
  {
    hide ToBits, FromBits, Xor, Lifted, Below, LowPart, TopByte, Wide;
    if v != [] {
      var n := |v| - 1;
      WordBelow(v[..n]);
      WordBelow(w[..n]);
      Parts(Word(v[..n]), ToBits(v[n]), n);
      Parts(Word(w[..n]), ToBits(w[n]), n);
      WideInjective(ToBits(v[n]), ToBits(w[n]));
      FromToBits(v[n]);
      FromToBits(w[n]);
      WordInjective(v[..n], w[..n]);
      assert v == v[..n] + [v[n]] && w == w[..n] + [w[n]];
    }
  }

  predicate Below(x: bv32, k: nat)
    requires k <= 4
  {
    match k
    case 0 => x == 0
    case 1 => x & 0xFFFF_FF00 == 0
    case 2 => x & 0xFFFF_0000 == 0
    case 3 => x & 0xFF00_0000 == 0
    case _ => true
  }

  lemma {:induction false} WordBelow(w: seq<U8>)
    requires |w| <= 4
    ensures Below(Word(w), |w|)
  {
    hide ToBits, Xor, Lifted, Below, LowPart, TopByte, Wide;
    if w == [] {
      BelowNothing();
    } else {
      WordBelow(w[..|w| - 1]);
      Parts(Word(w[..|w| - 1]), ToBits(w[|w| - 1]), |w| - 1);
    }
  }

  lemma BelowNothing()
    ensures Below(0, 0)
  {
  }

  function LowPart(x: bv32, k: nat): bv32
    requires k < 4
  {
    match k
    case 0 => 0
    case 1 => x & 0xFF
    case 2 => x & 0xFFFF
    case _ => x & 0xFF_FFFF
  }

  function TopByte(x: bv32, k: nat): bv32
    requires k < 4
  {
    match k
    case 0 => x
    case 1 => x >> 8
    case 2 => x >> 16
    case _ => x >> 24
  }

  /** A byte lifted above a smaller word can be read off again, and so can the word. */
  predicate Apart(x: bv32, b: bv8, k: nat)
    requires k < 4
  {
    var y := Xor(x, Lifted(b, k)); LowPart(y, k) == x && TopByte(y, k) == Wide(b) && Below(y, k + 1)
  }

  lemma Parts0(x: bv32, b: bv8)
    requires Below(x, 0)
    ensures Apart(x, b, 0)
  {
  }

  lemma Parts1(x: bv32, b: bv8)
    requires Below(x, 1)
    ensures Apart(x, b, 1)
  {
  }

  lemma Parts2(x: bv32, b: bv8)
    requires Below(x, 2)
    ensures Apart(x, b, 2)
  {
  }

  lemma Parts3(x: bv32, b: bv8)
    requires Below(x, 3)
    ensures Apart(x, b, 3)
  {
  }

  lemma Parts(x: bv32, b: bv8, k: nat)
    requires k < 4 && Below(x, k)
    ensures Apart(x, b, k)
  {
    hide Below, Apart;
    match k
    case 0 => Parts0(x, b);
    case 1 => Parts1(x, b);
    case 2 => Parts2(x, b);
    case 3 => Parts3(x, b);
  }

  lemma WideInjective(b: bv8, c: bv8)
    requires Wide(b) == Wide(c)
    ensures b == c
  {
  }

  /** Damage confined to four bytes in a row, one byte included, always changes the checksum. */
  lemma BurstDetected(before: seq<U8>, v: seq<U8>, w: seq<U8>, behind: seq<U8>, seed: bv32)
    requires |v| == |w| <= 4 && v != w
    ensures Crc(before + v + behind, seed) != Crc(before + w + behind, seed)
  {
    hide FeedBytes, Word, DivideBy, UndivideBy, Xor, Flip;
    var c := FeedBytes(Flip(seed), before);
    FeedConcat(Flip(seed), before + v, behind);
    FeedConcat(Flip(seed), before, v);
    FeedConcat(Flip(seed), before + w, behind);
    FeedConcat(Flip(seed), before, w);
    if Crc(before + v + behind, seed) == Crc(before + w + behind, seed) {
      FlipTwice(FeedBytes(FeedBytes(c, v), behind));
      FlipTwice(FeedBytes(FeedBytes(c, w), behind));
      FeedInjective(FeedBytes(c, v), FeedBytes(c, w), behind);
      FeedWord(c, v);
      FeedWord(c, w);
      DivideByBijective(Xor(c, Word(v)), 8 * |v|);
      DivideByBijective(Xor(c, Word(w)), 8 * |v|);
      XorCommutes(c, Word(v));
      XorCommutes(c, Word(w));
      XorCancels(Word(v), c);
      XorCancels(Word(w), c);
      WordInjective(v, w);
    }
  }

  lemma FlipTwice(x: bv32)
    ensures Flip(Flip(x)) == x
  {
  }

  /** A checksum may be continued: feeding in pieces is feeding at once. */
  lemma CrcContinues(a: seq<U8>, b: seq<U8>, seed: bv32)
    ensures Crc(a + b, seed) == Crc(b, Crc(a, seed))
  {
    hide FeedBytes, Flip;
    FeedConcat(Flip(seed), a, b);
    FlipTwice(FeedBytes(Flip(seed), a));
  }

  // ----- as stored

  /** The four bytes of a checksum, lowest first. */
  function CrcBytes(crc: bv32): (bytes: seq<U8>)
    ensures |bytes| == 4
  {
    [FromBits(LowByte(crc)), FromBits(LowByte(crc >> 8)), FromBits(LowByte(crc >> 16)), FromBits(LowByte(crc >> 24))]
  }

  lemma CrcBytesInjective(c: bv32, d: bv32)
    requires CrcBytes(c) == CrcBytes(d)
    ensures c == d
  {
    hide FromBits, ToBits, LowByte;
    assert CrcBytes(c)[0] == CrcBytes(d)[0] && CrcBytes(c)[1] == CrcBytes(d)[1]
           && CrcBytes(c)[2] == CrcBytes(d)[2] && CrcBytes(c)[3] == CrcBytes(d)[3];
    ToFromBits(LowByte(c));
    ToFromBits(LowByte(d));
    ToFromBits(LowByte(c >> 8));
    ToFromBits(LowByte(d >> 8));
    ToFromBits(LowByte(c >> 16));
    ToFromBits(LowByte(d >> 16));
    ToFromBits(LowByte(c >> 24));
    ToFromBits(LowByte(d >> 24));
    FourBytes(c, d);
  }

  lemma FourBytes(c: bv32, d: bv32)
    requires LowByte(c) == LowByte(d) && LowByte(c >> 8) == LowByte(d >> 8)
    requires LowByte(c >> 16) == LowByte(d >> 16) && LowByte(c >> 24) == LowByte(d >> 24)
    ensures c == d
  {
  }

  // ----- the check value

  lemma EightDivisions(y0: bv32, y1: bv32, y2: bv32, y3: bv32, y4: bv32, y5: bv32, y6: bv32, y7: bv32, y8: bv32)
    requires y1 == Divide(y0) && y2 == Divide(y1) && y3 == Divide(y2) && y4 == Divide(y3)
    requires y5 == Divide(y4) && y6 == Divide(y5) && y7 == Divide(y6) && y8 == Divide(y7)
    ensures DivideBy(y0, 8) == y8
  {
    hide Divide;
    assert DivideBy(y0, 1) == y1;
    assert DivideBy(y0, 2) == y2;
    assert DivideBy(y0, 3) == y3;
    assert DivideBy(y0, 4) == y4;
    assert DivideBy(y0, 5) == y5;
    assert DivideBy(y0, 6) == y6;
    assert DivideBy(y0, 7) == y7;
  }

  /** One more byte fed in, its eight divisions given one by one. */
  lemma FeedDigit(before: seq<U8>, n: U8, bits: bv8, crc: bv32, y0: bv32, y1: bv32, y2: bv32, y3: bv32, y4: bv32,
                  y5: bv32, y6: bv32, y7: bv32, y8: bv32)
    requires FeedBytes(0xFFFF_FFFF, before) == crc && ToBits(n) == bits && y0 == Xor(crc, Wide(bits))
    requires y1 == Divide(y0) && y2 == Divide(y1) && y3 == Divide(y2) && y4 == Divide(y3)
    requires y5 == Divide(y4) && y6 == Divide(y5) && y7 == Divide(y6) && y8 == Divide(y7)
    ensures FeedBytes(0xFFFF_FFFF, before + [n]) == y8
  {
    hide Divide, FeedBits, Unpack, ToBits, Wide;
    assert (before + [n])[..|before|] == before;
    FeedByte(crc, bits);
    EightDivisions(y0, y1, y2, y3, y4, y5, y6, y7, y8);
  }

  lemma DigitBits()
    ensures ToBits(49) == 0x31 && ToBits(50) == 0x32 && ToBits(51) == 0x33
    ensures ToBits(52) == 0x34 && ToBits(53) == 0x35 && ToBits(54) == 0x36
    ensures ToBits(55) == 0x37 && ToBits(56) == 0x38 && ToBits(57) == 0x39
  {
    hide ToBits;
    BitsAddUp(49, true, false, false, false, true, true, false, false);
    BitsAddUp(50, false, true, false, false, true, true, false, false);
    BitsAddUp(51, true, true, false, false, true, true, false, false);
    BitsAddUp(52, false, false, true, false, true, true, false, false);
    BitsAddUp(53, true, false, true, false, true, true, false, false);
    BitsAddUp(54, false, true, true, false, true, true, false, false);
    BitsAddUp(55, true, true, true, false, true, true, false, false);
    BitsAddUp(56, false, false, false, true, true, true, false, false);
    BitsAddUp(57, true, false, false, true, true, true, false, false);
  }

  lemma Fed1()
    ensures FeedBytes(0xFFFF_FFFF, [49]) == 0x6F0A_661C
  {
    hide ToBits;
    DigitBits();
    assert [49] == [] + [49];
    FeedDigit([], 49, 0x31, 0xFFFF_FFFF, 0xFFFF_FFCE, 0x7FFF_FFE7, 0xBD09_C48B, 0xDC72_D93D,
              0xECCF_57E6, 0x7667_ABF3, 0xB9C5_EE81, 0xDE14_CC38, 0x6F0A_661C);
  }

  lemma Fed2()
    ensures FeedBytes(0xFFFF_FFFF, [49, 50]) == 0x8CAA_3B9F
  {
    hide ToBits;
    DigitBits();
    Fed1();
    assert [49, 50] == [49] + [50];
    FeedDigit([49], 50, 0x32, 0x6F0A_661C, 0x6F0A_662E, 0x3785_3317, 0x9934_A2F3, 0xCE6C_6A01,
              0xE5C0_0E78, 0x72E0_073C, 0x3970_039E, 0x1CB8_01CF, 0x8CAA_3B9F);
  }

  lemma Fed3()
    ensures FeedBytes(0xFFFF_FFFF, [49, 50, 51]) == 0xEF84_D04D
  {
    hide ToBits;
    DigitBits();
    Fed2();
    assert [49, 50, 51] == [49, 50] + [51];
    FeedDigit([49, 50], 51, 0x33, 0x8CAA_3B9F, 0x8CAA_3BAC, 0x4655_1DD6, 0x232A_8EEB, 0x9363_7C0D,
              0xCB47_857E, 0x65A3_C2BF, 0xB027_DA27, 0xDAE5_D66B, 0xEF84_D04D);
  }

  lemma Fed4()
    ensures FeedBytes(0xFFFF_FFFF, [49, 50, 51, 52]) == 0x09C5_0B11
  {
    hide ToBits;
    DigitBits();
    Fed3();
    assert [49, 50, 51, 52] == [49, 50, 51] + [52];
    FeedDigit([49, 50, 51], 52, 0x34, 0xEF84_D04D, 0xEF84_D079, 0xF534_5344, 0x7A9A_29A2, 0x3D4D_14D1,
              0x9C50_B110, 0x4E28_5888, 0x2714_2C44, 0x138A_1622, 0x09C5_0B11);
  }

  lemma Fed5()
    ensures FeedBytes(0xFFFF_FFFF, [49, 50, 51, 52, 53]) == 0xE72E_DCCA
  {
    hide ToBits;
    DigitBits();
    Fed4();
    assert [49, 50, 51, 52, 53] == [49, 50, 51, 52] + [53];
    FeedDigit([49, 50, 51, 52], 53, 0x35, 0x09C5_0B11, 0x09C5_0B24, 0x04E2_8592, 0x0271_42C9, 0x83CE_9A1C,
              0x41E7_4D0E, 0x20F3_A687, 0x928F_E83B, 0xCBB1_CF65, 0xE72E_DCCA);
  }

  lemma Fed6()
    ensures FeedBytes(0xFFFF_FFFF, [49, 50, 51, 52, 53, 54]) == 0xBECA_8E79
  {
    hide ToBits;
    DigitBits();
    Fed5();
    assert [49, 50, 51, 52, 53, 54] == [49, 50, 51, 52, 53] + [54];
    FeedDigit([49, 50, 51, 52, 53], 54, 0x36, 0xE72E_DCCA, 0xE72E_DCFC, 0x7397_6E7E, 0x39CB_B73F, 0x9E13_E0E7,
              0xCDFF_CB0B, 0xE409_DEFD, 0xF0F2_D406, 0x7879_6A03, 0xBECA_8E79);
  }

  lemma Fed7()
    ensures FeedBytes(0xFFFF_FFFF, [49, 50, 51, 52, 53, 54, 55]) == 0xEDBD_6815
  {
    hide ToBits;
    DigitBits();
    Fed6();
    assert [49, 50, 51, 52, 53, 54, 55] == [49, 50, 51, 52, 53, 54] + [55];
    FeedDigit([49, 50, 51, 52, 53, 54], 55, 0x37, 0xBECA_8E79, 0xBECA_8E4E, 0x5F65_4727, 0xAD44_98EB, 0xD454_770D,
              0xE8DC_00FE, 0x746E_007F, 0xB8C1_3B47, 0xDE96_A6DB, 0xEDBD_6815);
  }

  lemma Fed8()
    ensures FeedBytes(0xFFFF_FFFF, [49, 50, 51, 52, 53, 54, 55, 56]) == 0x9F78_7F65
  {
    hide ToBits;
    DigitBits();
    Fed7();
    assert [49, 50, 51, 52, 53, 54, 55, 56] == [49, 50, 51, 52, 53, 54, 55] + [56];
    FeedDigit([49, 50, 51, 52, 53, 54, 55], 56, 0x38, 0xEDBD_6815, 0xEDBD_682D, 0xF428_8F6E, 0x7A14_47B7, 0xBFFC_18A3,
              0xDD08_3729, 0xEC72_20EC, 0x7639_1076, 0x3B1C_883B, 0x9F78_7F65);
  }

  lemma Fed9()
    ensures FeedBytes(0xFFFF_FFFF, [49, 50, 51, 52, 53, 54, 55, 56, 57]) == 0x1CF9_6D7C
  {
    hide ToBits;
    DigitBits();
    Fed8();
    assert [49, 50, 51, 52, 53, 54, 55, 56, 57] == [49, 50, 51, 52, 53, 54, 55, 56] + [57];
    FeedDigit([49, 50, 51, 52, 53, 54, 55, 56], 57, 0x39, 0x9F78_7F65, 0x9F78_7F5C, 0x4FBC_3FAE, 0x27DE_1FD7,
              0x9119_3493,
              0xCA7A_A131, 0xE7CB_6BE0, 0x73E5_B5F0, 0x39F2_DAF8, 0x1CF9_6D7C);
  }

  /** A checksum is stored lowest byte first. */
  lemma CheckBytes()
    ensures CrcBytes(0xE306_9283) == [0x83, 0x92, 0x06, 0xE3]
  {
    hide ToBits, FromBits;
    BitsAddUp(0x83, true, true, false, false, false, false, false, true);
    BitsAddUp(0x92, false, true, false, false, true, false, false, true);
    BitsAddUp(0x06, false, true, true, false, false, false, false, false);
    BitsAddUp(0xE3, true, true, false, false, false, true, true, true);
    FromToBits(0x83);
    FromToBits(0x92);
    FromToBits(0x06);
    FromToBits(0xE3);
  }

  /** The checksum of "123456789", by which the Castagnoli polynomial is told from the others. */
  lemma CheckValue()
    ensures Crc([49, 50, 51, 52, 53, 54, 55, 56, 57], 0) == 0xE306_9283
  {
    hide FeedBytes;
    Fed9();
  }
}

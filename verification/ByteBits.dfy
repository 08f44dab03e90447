/** A byte as a number and as eight bits. */
module ByteBits {
  import opened Arithmetic
  import opened Types

  function Pick(d: bool, bit: bv8): bv8 { if d then bit else 0 }

  function Join(d0: bool, d1: bool, d2: bool, d3: bool, d4: bool, d5: bool, d6: bool, d7: bool): bv8 {
    Pick(d0, 1) | Pick(d1, 2) | Pick(d2, 4) | Pick(d3, 8) | Pick(d4, 16) | Pick(d5, 32) | Pick(d6, 64) | Pick(d7, 128)
  }

  function Pack(d: seq<bool>): bv8
    requires |d| == 8
  {
    Join(d[0], d[1], d[2], d[3], d[4], d[5], d[6], d[7])
  }

  /** Lowest bit first. */
  function Unpack(b: bv8): (d: seq<bool>)
    ensures |d| == 8
  {
    [b & 1 != 0, b & 2 != 0, b & 4 != 0, b & 8 != 0, b & 16 != 0, b & 32 != 0, b & 64 != 0, b & 128 != 0]
  }

  lemma PackUnpack(b: bv8)
    ensures Pack(Unpack(b)) == b
  {
  }

  lemma UnpackPack(d: seq<bool>)
    requires |d| == 8
    ensures Unpack(Pack(d)) == d
  {
    hide Join, Unpack;
    Unpacked(d[0], d[1], d[2], d[3], d[4], d[5], d[6], d[7]);
  }

  lemma Unpacked(d0: bool, d1: bool, d2: bool, d3: bool, d4: bool, d5: bool, d6: bool, d7: bool)
    ensures Unpack(Join(d0, d1, d2, d3, d4, d5, d6, d7)) == [d0, d1, d2, d3, d4, d5, d6, d7]
  {
    hide Join;
    Joined(d0, d1, d2, d3, d4, d5, d6, d7);
  }

  lemma Joined(d0: bool, d1: bool, d2: bool, d3: bool, d4: bool, d5: bool, d6: bool, d7: bool)
    ensures var b := Join(d0, d1, d2, d3, d4, d5, d6, d7);
            && (b & 1 != 0) == d0 && (b & 2 != 0) == d1 && (b & 4 != 0) == d2 && (b & 8 != 0) == d3
            && (b & 16 != 0) == d4 && (b & 32 != 0) == d5 && (b & 64 != 0) == d6 && (b & 128 != 0) == d7
  {
  }

  function Digits(n: nat, k: nat): (d: seq<bool>)
    ensures |d| == k
  {
    if k == 0 then [] else [n % 2 == 1] + Digits(n / 2, k - 1)
  }

  function Number(d: seq<bool>): nat {
    if d == [] then 0 else (if d[0] then 1 else 0) + 2 * Number(d[1..])
  }

  lemma {:induction false} NumberDigits(n: nat, k: nat)
    requires n < Pow2(k)
    ensures Number(Digits(n, k)) == n
  {
    if k > 0 {
      NumberDigits(n / 2, k - 1);
    }
  }

  lemma {:induction false} DigitsNumber(d: seq<bool>)
    ensures Digits(Number(d), |d|) == d && Number(d) < Pow2(|d|)
  {
    if d != [] {
      DigitsNumber(d[1..]);
    }
  }

  lemma Power2Of8()
    ensures Pow2(8) == 256
  {
    assert Pow2(2) == 4 && Pow2(4) == 16 && Pow2(6) == 64;
  }

  function ToBits(n: U8): bv8 { Pack(Digits(n, 8)) }

  function FromBits(b: bv8): U8 {
    Power2Of8();
    DigitsNumber(Unpack(b));
    Number(Unpack(b))
  }

  lemma FromToBits(n: U8)
    ensures FromBits(ToBits(n)) == n
  {
    hide Pack, Unpack, Digits;
    Power2Of8();
    UnpackPack(Digits(n, 8));
    NumberDigits(n, 8);
  }

  lemma ToFromBits(b: bv8)
    ensures ToBits(FromBits(b)) == b
  {
    hide Pack, Unpack, Digits;
    DigitsNumber(Unpack(b));
    PackUnpack(b);
  }

  function Bit(b: bool): nat { if b then 1 else 0 }

  /** A byte is the bits that add up to it. */
  lemma BitsAddUp(n: U8, d0: bool, d1: bool, d2: bool, d3: bool, d4: bool, d5: bool, d6: bool, d7: bool)
    requires n == Bit(d0) + 2 * Bit(d1) + 4 * Bit(d2) + 8 * Bit(d3)
                  + 16 * Bit(d4) + 32 * Bit(d5) + 64 * Bit(d6) + 128 * Bit(d7)
    ensures ToBits(n) == Join(d0, d1, d2, d3, d4, d5, d6, d7)
  {
    hide Join, Digits, Number, Bit;
    var e4 := [d4] + ([d5] + ([d6] + [d7]));
    var d := [d0] + ([d1] + ([d2] + ([d3] + e4)));
    NumberNone();
    assert [d7] + [] == [d7];
    NumberFront(d7, []);
    NumberFront(d6, [d7]);
    NumberFront(d5, [d6] + [d7]);
    NumberFront(d4, [d5] + ([d6] + [d7]));
    NumberFront(d3, e4);
    NumberFront(d2, [d3] + e4);
    NumberFront(d1, [d2] + ([d3] + e4));
    NumberFront(d0, [d1] + ([d2] + ([d3] + e4)));
    assert Number(d) == n;
    DigitsNumber(d);
  }

  lemma NumberNone()
    ensures Number([]) == 0
  {
  }

  lemma NumberFront(b: bool, rest: seq<bool>)
    ensures Number([b] + rest) == Bit(b) + 2 * Number(rest)
  {
    assert ([b] + rest)[1..] == rest;
  }
}

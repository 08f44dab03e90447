/** A set of small numbers held as words of 64 bits, and the search order over it.
    An upper bitmap summarises a lower one: one bit per word, set exactly when
    the word holds something. */
module Bitmap {
  import opened Bits

  /** Traversal order: bids are walked downwards, asks upwards. */
  predicate Before(descending: bool, a: nat, b: nat) {
    if descending then a > b else a < b
  }

  predicate In(words: seq<bv64>, t: nat)
    requires t < 64 * |words|
  {
    Bit(words[t / 64], t % 64)
  }

  ghost predicate Within(words: seq<bv64>, bound: nat) {
    |words| == (bound + 63) / 64 && forall t :: 0 <= t < 64 * |words| && In(words, t) ==> t < bound
  }

  ghost predicate Summarises(upper: seq<bv64>, lower: seq<bv64>) {
    Within(upper, |lower|) && forall w :: 0 <= w < |lower| ==> (In(upper, w) <==> lower[w] != 0)
  }

  /** `t` is the first member in traversal order. */
  ghost predicate IsFirst(descending: bool, words: seq<bv64>, t: nat) {
    && t < 64 * |words| && In(words, t)
    && forall u :: 0 <= u < 64 * |words| && In(words, u) ==> u == t || Before(descending, t, u)
  }

  /** `t` is the first member strictly after `from`. */
  ghost predicate IsNext(descending: bool, words: seq<bv64>, from: nat, t: nat) {
    && t < 64 * |words| && In(words, t) && Before(descending, from, t)
    && forall u :: 0 <= u < 64 * |words| && In(words, u) && Before(descending, from, u) ==>
       u == t || Before(descending, t, u)
  }

  ghost predicate IsLast(descending: bool, words: seq<bv64>, from: nat) {
    forall u :: 0 <= u < 64 * |words| && In(words, u) ==> !Before(descending, from, u)
  }

  function Pick(descending: bool, w: bv64): (b: nat)
    requires w != 0
    ensures b < 64 && Bit(w, b)
    ensures forall c :: 0 <= c < 64 && Bit(w, c) ==> c == b || Before(descending, b, c)
  {
    hide Bit;
    SomeBit(w);
    HighestIs(w, 63);
    LowestIs(w, 0);
    if descending then Highest(w) else Lowest(w)
  }

  /** The bits of a word strictly after `b` in traversal order. */
  function Rest(descending: bool, w: bv64, b: nat): (r: bv64)
    requires b < 64
    ensures forall c :: 0 <= c < 64 ==> (Bit(r, c) <==> Bit(w, c) && Before(descending, b, c))
  {
    hide Bit, And, Above, Below;
    RestBits(descending, w, b);
    And(w, if descending then Below(b) else Above(b))
  }

  lemma RestBits(descending: bool, w: bv64, b: nat)
    requires b < 64
    ensures var mask := if descending then Below(b) else Above(b);
            forall c :: 0 <= c < 64 ==> (Bit(And(w, mask), c) <==> Bit(w, c) && Before(descending, b, c))
  {
    hide Bit, And, Above, Below;
    var mask := if descending then Below(b) else Above(b);
    forall c | 0 <= c < 64 ensures Bit(And(w, mask), c) <==> Bit(w, c) && Before(descending, b, c) {
      MaskedBit(w, mask, c);
      if descending { BelowMask(b, c); } else { AboveMask(b, c); }
    }
  }

  // ----- a word and its members

  lemma WordHolds(words: seq<bv64>, t: nat)
    requires t < 64 * |words| && In(words, t)
    ensures words[t / 64] != 0
  {
    hide Bit;
    SomeBit(words[t / 64]);
  }

  /** Comparing numbers is comparing word and then bit. */
  lemma BeforeByWord(descending: bool, a: nat, b: nat)
    ensures Before(descending, a, b) <==>
            Before(descending, a / 64, b / 64) || (a / 64 == b / 64 && Before(descending, a % 64, b % 64))
  {
  }

  // ----- the first member

  lemma FirstOfFirstWord(descending: bool, words: seq<bv64>, w: nat)
    requires w < |words| && words[w] != 0
    requires forall v :: 0 <= v < |words| && words[v] != 0 ==> v == w || Before(descending, w, v)
    ensures IsFirst(descending, words, 64 * w + Pick(descending, words[w]))
  {
    hide Bit;
    var t := 64 * w + Pick(descending, words[w]);
    forall u | 0 <= u < 64 * |words| && In(words, u)
      ensures u == t || Before(descending, t, u)
    {
      WordHolds(words, u);
      BeforeByWord(descending, t, u);
    }
  }

  /** The first member of the lower bitmap lies in the first word its summary names. */
  lemma FirstBelow(descending: bool, upper: seq<bv64>, lower: seq<bv64>, w: nat)
    requires Summarises(upper, lower) && IsFirst(descending, upper, w)
    ensures w < |lower| && lower[w] != 0
    ensures IsFirst(descending, lower, 64 * w + Pick(descending, lower[w]))
  {
    hide Bit;
    FirstOfFirstWord(descending, lower, w);
  }

  // ----- the next member

  lemma NextInWord(descending: bool, words: seq<bv64>, t: nat)
    requires t < 64 * |words| && Rest(descending, words[t / 64], t % 64) != 0
    ensures IsNext(descending, words, t, 64 * (t / 64) + Pick(descending, Rest(descending, words[t / 64], t % 64)))
  {
    hide Bit;
    var rest := Rest(descending, words[t / 64], t % 64);
    var n := 64 * (t / 64) + Pick(descending, rest);
    BeforeByWord(descending, t, n);
    forall u | 0 <= u < 64 * |words| && In(words, u) && Before(descending, t, u)
      ensures u == n || Before(descending, n, u)
    {
      BeforeByWord(descending, t, u);
      BeforeByWord(descending, n, u);
    }
  }

  lemma NextInLaterWord(descending: bool, words: seq<bv64>, t: nat, w: nat)
    requires t < 64 * |words| && Rest(descending, words[t / 64], t % 64) == 0
    requires w < |words| && words[w] != 0 && Before(descending, t / 64, w)
    requires forall v :: 0 <= v < |words| && words[v] != 0 && Before(descending, t / 64, v) ==>
             v == w || Before(descending, w, v)
    ensures IsNext(descending, words, t, 64 * w + Pick(descending, words[w]))
  {
    hide Bit;
    var n := 64 * w + Pick(descending, words[w]);
    BeforeByWord(descending, t, n);
    forall u | 0 <= u < 64 * |words| && In(words, u) && Before(descending, t, u)
      ensures u == n || Before(descending, n, u)
    {
      NothingInRest(descending, words[t / 64], t % 64);
      WordHolds(words, u);
      BeforeByWord(descending, t, u);
      BeforeByWord(descending, n, u);
    }
  }

  lemma NothingInRest(descending: bool, w: bv64, b: nat)
    requires b < 64 && Rest(descending, w, b) == 0
    ensures forall c :: 0 <= c < 64 && Bit(w, c) ==> !Before(descending, b, c)
  {
    hide Bit;
    SomeBit(Rest(descending, w, b));
  }

  lemma NoLaterWord(descending: bool, words: seq<bv64>, t: nat)
    requires t < 64 * |words| && Rest(descending, words[t / 64], t % 64) == 0
    requires forall v :: 0 <= v < |words| && words[v] != 0 ==> !Before(descending, t / 64, v)
    ensures IsLast(descending, words, t)
  {
    hide Bit;
    forall u | 0 <= u < 64 * |words| && In(words, u)
      ensures !Before(descending, t, u)
    {
      NothingInRest(descending, words[t / 64], t % 64);
      WordHolds(words, u);
      BeforeByWord(descending, t, u);
    }
  }

  /** When a word is exhausted, its summary says where to go on. */
  lemma NextBelow(descending: bool, upper: seq<bv64>, lower: seq<bv64>, t: nat, w: nat)
    requires Summarises(upper, lower) && t < 64 * |lower| && Rest(descending, lower[t / 64], t % 64) == 0
    requires IsNext(descending, upper, t / 64, w)
    ensures w < |lower| && lower[w] != 0
    ensures IsNext(descending, lower, t, 64 * w + Pick(descending, lower[w]))
  {
    hide Bit;
    NextInLaterWord(descending, lower, t, w);
  }

  lemma LastBelow(descending: bool, upper: seq<bv64>, lower: seq<bv64>, t: nat)
    requires Summarises(upper, lower) && t < 64 * |lower| && Rest(descending, lower[t / 64], t % 64) == 0
    requires IsLast(descending, upper, t / 64)
    ensures IsLast(descending, lower, t)
  {
    hide Bit;
    NoLaterWord(descending, lower, t);
  }

  // ----- changing one member

  function With(words: seq<bv64>, t: nat): (r: seq<bv64>)
    requires t < 64 * |words|
    ensures |r| == |words|
  {
    words[t / 64 := Set(words[t / 64], t % 64)]
  }

  function Without(words: seq<bv64>, t: nat): (r: seq<bv64>)
    requires t < 64 * |words|
    ensures |r| == |words|
  {
    words[t / 64 := Clear(words[t / 64], t % 64)]
  }

  lemma WithMembers(words: seq<bv64>, t: nat, u: nat)
    requires t < 64 * |words| && u < 64 * |words|
    ensures In(With(words, t), u) <==> u == t || In(words, u)
  {
    hide Bit, Set, Clear;
    SetBit(words[t / 64], t % 64, u % 64);
  }

  lemma WithoutMembers(words: seq<bv64>, t: nat, u: nat)
    requires t < 64 * |words| && u < 64 * |words|
    ensures In(Without(words, t), u) <==> u != t && In(words, u)
  {
    hide Bit, Set, Clear;
    ClearBit(words[t / 64], t % 64, u % 64);
  }

  lemma WithKeepsWithin(words: seq<bv64>, bound: nat, t: nat)
    requires Within(words, bound) && t < bound
    ensures Within(With(words, t), bound)
  {
    hide Bit, Set, Clear;
    forall u | 0 <= u < 64 * |words| && In(With(words, t), u) ensures u < bound {
      WithMembers(words, t, u);
    }
  }

  lemma WithoutKeepsWithin(words: seq<bv64>, bound: nat, t: nat)
    requires Within(words, bound) && t < bound
    ensures Within(Without(words, t), bound)
  {
    hide Bit, Set, Clear;
    forall u | 0 <= u < 64 * |words| && In(Without(words, t), u) ensures u < bound {
      WithoutMembers(words, t, u);
    }
  }

  /** Setting a bit below and its summary above keeps the summary exact. */
  lemma WithKeepsSummary(upper: seq<bv64>, lower: seq<bv64>, t: nat)
    requires Summarises(upper, lower) && t < 64 * |lower|
    ensures Summarises(With(upper, t / 64), With(lower, t))
  {
    hide Bit, Set, Clear;
    forall w | 0 <= w < 64 * |upper|
      ensures In(With(upper, t / 64), w) <==> w == t / 64 || In(upper, w)
    {
      WithMembers(upper, t / 64, w);
    }
    WithMembers(lower, t, t);
    WordHolds(With(lower, t), t);
  }

  /** Clearing a bit leaves the summary alone while the word still holds something. */
  lemma WithoutKeepsSummary(upper: seq<bv64>, lower: seq<bv64>, t: nat)
    requires Summarises(upper, lower) && t < 64 * |lower| && In(lower, t)
    ensures if Without(lower, t)[t / 64] != 0 then Summarises(upper, Without(lower, t))
            else Summarises(Without(upper, t / 64), Without(lower, t))
  {
    hide Bit, Set, Clear;
    WordHolds(lower, t);
    forall w | 0 <= w < 64 * |upper|
      ensures In(Without(upper, t / 64), w) <==> w != t / 64 && In(upper, w)
    {
      WithoutMembers(upper, t / 64, w);
    }
  }
}

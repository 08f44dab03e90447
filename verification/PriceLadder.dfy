/** Price levels in a flat array indexed by tick, under a three-level bitmap of
    the occupied ones.  To its users it is a set of occupied ticks that can name
    its first member in traversal order and the neighbour of any member. */
module Ladder {
  import opened Arithmetic
  import opened Bits
  import opened Bitmap
  import opened Slab

  const NPOS := -1

  class PriceLadder {
    const base: int
    const tick: int
    const descending: bool
    var levels: seq<PriceLevel>
    var l0: seq<bv64>
    var l1: seq<bv64>
    var l2: seq<bv64>
    var occupied: nat
    /** The handles queued at each tick; the book keeps them in step with `levels`. */
    ghost var queues: seq<seq<nat>>

    ghost predicate Valid()
      reads this
    {
      && tick >= 1 && |levels| >= 1 && |queues| == |levels|
      && Within(l0, |levels|)
      && Summarises(l1, l0)
      && Summarises(l2, l1)
      && occupied == |Members()|
    }

    predicate Has(t: nat)
      reads this
    {
      t < |levels| && t < 64 * |l0| && In(l0, t)
    }

    ghost function Members(): set<nat>
      reads this
    {
      set t | 0 <= t < |levels| && Has(t)
    }

    function PriceAt(index: nat): int { base + index * tick }

    constructor (base: int, tick: int, tickCount: nat, descending: bool)
      requires tick >= 1 && tickCount >= 1
      ensures Valid() && forall t: nat :: !Has(t)
      ensures this.base == base && this.tick == tick && this.descending == descending
      ensures |levels| == tickCount
      ensures forall t :: 0 <= t < tickCount ==> levels[t] == EMPTY_LEVEL && queues[t] == []
    {
      this.base, this.tick, this.descending := base, tick, descending;
      levels := seq(tickCount, _ => EMPTY_LEVEL);
      var n0 := (tickCount + 63) / 64;
      var n1 := (n0 + 63) / 64;
      l0 := seq(n0, _ => 0);
      l1 := seq(n1, _ => 0);
      l2 := seq((n1 + 63) / 64, _ => 0);
      occupied := 0;
      queues := seq(tickCount, _ => []);
      new;
      NothingIn(l0);
      NothingIn(l1);
      NothingIn(l2);
      assert Members() == {};
    }

    // ----- prices and ticks

    method IndexOf(price: int) returns (index: int)
      requires Valid()
      ensures index == NPOS || (0 <= index < |levels| && PriceAt(index) == price)
      ensures forall t :: 0 <= t < |levels| && PriceAt(t) == price ==> index == t
    {
      index := NPOS;
      if price >= base && (price - base) % tick == 0 {
        var t := (price - base) / tick;
        TickArithmetic(price - base, tick);
        if t < |levels| {
          index := t;
        }
      }
      forall t | 0 <= t < |levels| && PriceAt(t) == price ensures index == t {
        TickOf(price - base, tick, t);
      }
    }

    // ----- occupying and vacating

    /** Looks a tick's bit up. */
    method Test(index: nat) returns (occupied: bool)
      requires Valid() && index < |levels|
      ensures occupied == Has(index)
    {
      hide Bit, Tested, Summarises;
      TestBit(l0[index / 64], index % 64);
      return Tested(l0[index / 64], index % 64);
    }

    /** The subscript operator: the tick of `price`, marked occupied. */
    method Open(price: int) returns (index: nat)
      requires Valid() && exists t :: 0 <= t < |levels| && PriceAt(t) == price
      modifies this`l0, this`l1, this`l2, this`occupied
      ensures Valid() && index < |levels| && PriceAt(index) == price
      ensures forall t: nat :: Has(t) <==> t == index || old(Has(t))
      ensures old(Marks(NPOS)) ==> Marks(index)
    {
      hide Bit, Summarises, Within;
      var found := IndexOf(price);
      index := found;
      var occupied := Test(index);
      if !occupied {
        SetTick(index);
      }
    }

    lemma EnoughWords(index: nat)
      requires Valid() && index < |levels|
      ensures index < 64 * |l0|
    {
      hide Bit, Summarises, In;
    }

    method SetTick(index: nat)
      requires Valid() && index < |levels| && !Has(index)
      modifies this`l0, this`l1, this`l2, this`occupied
      ensures Valid() && forall t: nat :: Has(t) <==> t == index || old(Has(t))
    {
      hide Bit, Set, Summarises, In, Within;
      ghost var m := Members();
      EnoughWords(index);
      SetEverywhere(l2, l1, l0, |levels|, index);
      l0 := l0[index / 64 := Set(l0[index / 64], index % 64)];
      l1 := l1[index / 4096 := Set(l1[index / 4096], index / 64 % 64)];
      l2 := l2[index / 262144 := Set(l2[index / 262144], index / 4096 % 64)];
      occupied := occupied + 1;
      assert Members() == m + {index};
    }

    method ClearTick(index: nat)
      requires Valid() && Has(index)
      modifies this`l0, this`l1, this`l2, this`occupied
      ensures Valid() && forall t: nat :: Has(t) <==> t != index && old(Has(t))
    {
      hide Bit, Clear, Summarises, In, Within;
      ghost var m := Members();
      assert index in m;
      ClearEverywhere(l2, l1, l0, |levels|, index);
      var w0 := index / 64;
      l0 := l0[w0 := Clear(l0[w0], index % 64)];
      if l0[w0] == 0 {
        var w1 := index / 4096;
        l1 := l1[w1 := Clear(l1[w1], w0 % 64)];
        if l1[w1] == 0 {
          l2 := l2[index / 262144 := Clear(l2[index / 262144], w1 % 64)];
        }
      }
      occupied := occupied - 1;
      assert m == Members() + {index};
    }

    method Erase(index: nat)
      requires Valid() && Has(index)
      modifies this`l0, this`l1, this`l2, this`occupied, this`levels
      ensures Valid() && forall t: nat :: Has(t) <==> t != index && old(Has(t))
      ensures levels == old(levels)[index := EMPTY_LEVEL]
      ensures old(Marks(index)) && queues[index] == [] ==> Marks(NPOS)
    {
      hide Bit, Summarises, Within;
      ClearTick(index);
      ghost var m := Members();
      levels := levels[index := EMPTY_LEVEL];
      assert Members() == m;
    }

    /** A bit is set exactly when its tick has a queue; tick `open`, which is
        being worked on, is set and may be momentarily empty. */
    ghost predicate Marks(open: int)
      reads this
    {
      && (forall t: nat :: t < |queues| && t != open ==> (Has(t) <==> queues[t] != []))
      && (0 <= open ==> Has(open))
    }

    lemma MarksHas(t: nat)
      requires Marks(t)
      ensures Has(t)
    {
    }

    lemma MarksFull(t: nat)
      requires Marks(t) && t < |queues| && queues[t] != []
      ensures Marks(NPOS)
    {
    }

    lemma MarksOpen(t: nat)
      requires Marks(NPOS) && t < |queues| && queues[t] != []
      ensures Has(t) && Marks(t)
    {
    }

    /** Stores back a level that was changed, with the queue it now stands for. */
    method Store(index: nat, level: PriceLevel, ghost queue: seq<nat>, ghost open: int)
      requires Valid() && index < |levels|
      requires Marks(open) && (index == open || (queue == [] <==> queues[index] == []))
      modifies this`levels, this`queues
      ensures Valid() && Marks(open)
      ensures levels == old(levels)[index := level] && queues == old(queues)[index := queue]
    {
      hide Bit, Within, Summarises;
      ghost var m := Members();
      levels := levels[index := level];
      queues := queues[index := queue];
      assert Members() == m;
    }

    // ----- searching

    /** The first member of the part of the ladder under word `w1` of the middle bitmap. */
    function FromL1(w1: nat): nat
      reads this
      requires w1 < |l1| && l1[w1] != 0
      requires var w0 := 64 * w1 + Pick(descending, l1[w1]); w0 < |l0| && l0[w0] != 0
    {
      var w0 := 64 * w1 + Pick(descending, l1[w1]);
      64 * w0 + Pick(descending, l0[w0])
    }

    method BestOccupied() returns (index: int)
      requires Valid()
      ensures index == NPOS || (index >= 0 && Has(index))
      ensures index == NPOS <==> occupied == 0
      ensures forall t: nat :: Has(t) ==> index != NPOS && (t == index || Before(descending, index, t))
    {
      hide Bit, Pick, In, Within, Summarises, IsFirst, Members, Has;
      if occupied == 0 {
        NoMembers();
        return NPOS;
      }
      var w2 := if descending then |l2| else 0;
      while if descending then w2 > 0 else w2 < |l2|
        invariant 0 <= w2 <= |l2|
        invariant forall v :: 0 <= v < |l2| && (if descending then w2 <= v else v < w2) ==> l2[v] == 0
        decreases if descending then w2 else |l2| - w2
      {
        var w := if descending then w2 - 1 else w2;
        if l2[w] != 0 {
          FirstOfFirstWord(descending, l2, w);
          var w1 := 64 * w + Pick(descending, l2[w]);
          FirstBelow(descending, l2, l1, w1);
          FirstBelow(descending, l1, l0, 64 * w1 + Pick(descending, l1[w1]));
          index := FromL1(w1);
          FirstMember(index);
          return;
        }
        w2 := if descending then w else w2 + 1;
      }
      NothingUnder();
      index := NPOS;
    }

    lemma NoMembers()
      requires Valid() && occupied == 0
      ensures forall t: nat :: !Has(t)
    {
      hide Bit, Summarises;
      forall t: nat ensures !Has(t) {
        assert Has(t) ==> t in Members();
      }
    }

    lemma NothingUnder()
      requires Valid() && forall v :: 0 <= v < |l2| ==> l2[v] == 0
      ensures occupied == 0 && forall t: nat :: !Has(t)
    {
      hide Bit, Summarises;
      NothingIn(l2);
      NothingBelow(l2, l1);
      NothingBelow(l1, l0);
      assert Members() == {};
    }

    lemma FirstMember(n: nat)
      requires Valid() && IsFirst(descending, l0, n)
      ensures Has(n) && occupied > 0 && forall t: nat :: Has(t) ==> t == n || Before(descending, n, t)
    {
      hide Bit, Summarises;
      assert n in Members();
    }

    lemma NextMember(from: nat, n: nat)
      requires Valid() && IsNext(descending, l0, from, n)
      ensures Has(n) && Before(descending, from, n)
      ensures forall t: nat :: Has(t) && Before(descending, from, t) ==> t == n || Before(descending, n, t)
    {
      hide Bit, Summarises;
    }

    method NextOccupied(from: nat) returns (index: int)
      requires Valid() && from < |levels|
      ensures index == NPOS || (index >= 0 && Has(index) && Before(descending, from, index))
      ensures forall t: nat :: Has(t) && Before(descending, from, t) ==>
              index != NPOS && (t == index || Before(descending, index, t))
    {
      hide Bit, In, Summarises, Pick, Rest, IsNext, Has, Members;
      SummaryIndex(l2, l1, l0, from);
      var w0 := from / 64;
      var rest0 := Rest(descending, l0[w0], from % 64);
      if rest0 != 0 {
        NextInWord(descending, l0, from);
        index := 64 * w0 + Pick(descending, rest0);
        NextMember(from, index);
        return;
      }
      var w1 := w0 / 64;
      var rest1 := Rest(descending, l1[w1], w0 % 64);
      if rest1 != 0 {
        NextInWord(descending, l1, w0);
        var next0 := 64 * w1 + Pick(descending, rest1);
        NextBelow(descending, l1, l0, from, next0);
        index := 64 * next0 + Pick(descending, l0[next0]);
        NextMember(from, index);
        return;
      }
      var w2 := w1 / 64;
      var rest2 := Rest(descending, l2[w2], w1 % 64);
      if rest2 != 0 {
        NextInWord(descending, l2, w1);
        index := NextUnder(from, w0, 64 * w2 + Pick(descending, rest2));
        return;
      }
      index := NextTopWord(from, w0, w1, w2);
    }

    /** Comes down from the word of the middle bitmap that holds the next member. */
    method NextUnder(from: nat, w0: nat, next1: nat) returns (index: nat)
      requires Valid() && from < |levels| && w0 == from / 64 < |l0| && w0 / 64 < |l1|
      requires Rest(descending, l0[w0], from % 64) == 0 && Rest(descending, l1[w0 / 64], w0 % 64) == 0
      requires IsNext(descending, l2, w0 / 64, next1)
      ensures Has(index) && Before(descending, from, index)
      ensures forall t: nat :: Has(t) && Before(descending, from, t) ==> t == index || Before(descending, index, t)
    {
      hide Bit, In, Summarises, Pick, Rest, IsNext, Has, Members;
      SummaryIndex(l2, l1, l0, from);
      NextBelow(descending, l2, l1, w0, next1);
      NextBelow(descending, l1, l0, from, 64 * next1 + Pick(descending, l1[next1]));
      index := FromL1(next1);
      NextMember(from, index);
    }

    /** The rest of the top bitmap, once everything under the current top word is exhausted. */
    method NextTopWord(from: nat, w0: nat, w1: nat, w2: nat) returns (index: int)
      requires Valid() && from < |levels| && w0 == from / 64 && w1 == w0 / 64 && w2 == w1 / 64
      requires w0 < |l0| && w1 < |l1| && w2 < |l2|
      requires Rest(descending, l0[w0], from % 64) == 0 && Rest(descending, l1[w1], w0 % 64) == 0
      requires Rest(descending, l2[w2], w1 % 64) == 0
      ensures index == NPOS || (index >= 0 && Has(index) && Before(descending, from, index))
      ensures forall t: nat :: Has(t) && Before(descending, from, t) ==>
              index != NPOS && (t == index || Before(descending, index, t))
    {
      hide Bit, In, Summarises, Pick, Rest, IsNext, Has, Members;
      SummaryIndex(l2, l1, l0, from);
      var w: int := if descending then w2 else w2 + 1;
      while if descending then w > 0 else w < |l2|
        invariant if descending then 0 <= w <= w2 else w2 < w <= |l2|
        invariant forall v :: 0 <= v < |l2| && Before(descending, w2, v) && (if descending then w <= v else v < w) ==>
                  l2[v] == 0
        decreases if descending then w else |l2| - w
      {
        var next2 := if descending then w - 1 else w;
        if l2[next2] != 0 {
          NextInLaterWord(descending, l2, w1, next2);
          index := NextUnder(from, w0, 64 * next2 + Pick(descending, l2[next2]));
          return;
        }
        w := if descending then next2 else w + 1;
      }
      NothingLater(from);
      index := NPOS;
    }

    lemma NothingLater(from: nat)
      requires Valid() && from / 64 < |l0| && from / 4096 < |l1| && from / 262144 < |l2|
      requires Rest(descending, l0[from / 64], from % 64) == 0
      requires Rest(descending, l1[from / 4096], from / 64 % 64) == 0
      requires Rest(descending, l2[from / 262144], from / 4096 % 64) == 0
      requires forall v :: 0 <= v < |l2| && Before(descending, from / 262144, v) ==> l2[v] == 0
      ensures forall t: nat :: Has(t) ==> !Before(descending, from, t)
    {
      hide Bit, Summarises, Rest;
      SummaryIndex(l2, l1, l0, from);
      NoLaterWord(descending, l2, from / 4096);
      LastBelow(descending, l2, l1, from / 64);
      LastBelow(descending, l1, l0, from);
    }

    /** Iteration: every occupied tick exactly once, in traversal order. */
    method Walk() returns (ticks: seq<nat>)
      requires Valid()
      ensures forall i, j :: 0 <= i < j < |ticks| ==> Before(descending, ticks[i], ticks[j])
      ensures forall t: nat :: t in ticks <==> Has(t)
    {
      hide Bit, Summarises, Within;
      ticks := [];
      var index := BestOccupied();
      while index != NPOS
        invariant index == NPOS || (index >= 0 && Has(index))
        invariant forall i, j :: 0 <= i < j < |ticks| ==> Before(descending, ticks[i], ticks[j])
        invariant forall i :: 0 <= i < |ticks| ==>
                  Has(ticks[i]) && (index != NPOS ==> Before(descending, ticks[i], index))
        invariant forall t: nat :: Has(t) ==>
                  t in ticks || (index != NPOS && (t == index || Before(descending, index, t)))
        decreases if index == NPOS then 0 else if descending then index + 1 else |levels| - index
      {
        ticks := ticks + [index];
        index := NextOccupied(index);
      }
    }
  }

  /** A tick's word, its word's word, and theirs, are all inside their bitmaps. */
  lemma SummaryIndex(l2: seq<bv64>, l1: seq<bv64>, l0: seq<bv64>, index: nat)
    requires Summarises(l1, l0) && Summarises(l2, l1) && index < 64 * |l0|
    ensures index / 64 < |l0| && index / 4096 == index / 64 / 64 < |l1|
    ensures index / 262144 == index / 4096 / 64 < |l2|
    ensures |l0| <= 64 * |l1| && |l1| <= 64 * |l2|
  {
  }

  /** Setting a tick's bit, its word's bit and theirs keeps the three bitmaps in step. */
  lemma SetEverywhere(l2: seq<bv64>, l1: seq<bv64>, l0: seq<bv64>, bound: nat, index: nat)
    requires Summarises(l1, l0) && Summarises(l2, l1) && Within(l0, bound) && index < bound && index < 64 * |l0|
    ensures index / 64 < |l0| && index / 4096 < |l1| && index / 262144 < |l2|
    ensures var m0 := l0[index / 64 := Set(l0[index / 64], index % 64)];
            var m1 := l1[index / 4096 := Set(l1[index / 4096], index / 64 % 64)];
            var m2 := l2[index / 262144 := Set(l2[index / 262144], index / 4096 % 64)];
            && Summarises(m1, m0) && Summarises(m2, m1) && Within(m0, bound)
            && forall t :: 0 <= t < 64 * |l0| ==> (In(m0, t) <==> t == index || In(l0, t))
  {
    hide Bit, Set, Summarises, Within, In;
    SummaryIndex(l2, l1, l0, index);
    WithKeepsSummary(l1, l0, index);
    WithKeepsSummary(l2, l1, index / 64);
    WithKeepsWithin(l0, bound, index);
    forall t | 0 <= t < 64 * |l0| ensures In(With(l0, index), t) <==> t == index || In(l0, t) {
      WithMembers(l0, index, t);
    }
  }

  /** Clearing a tick's bit, and each bit above it only when its word has emptied, does so too. */
  lemma ClearEverywhere(l2: seq<bv64>, l1: seq<bv64>, l0: seq<bv64>, bound: nat, index: nat)
    requires Summarises(l1, l0) && Summarises(l2, l1) && Within(l0, bound) && index < bound && index < 64 * |l0|
             && In(l0, index)
    ensures index / 64 < |l0| && index / 4096 < |l1| && index / 262144 < |l2|
    ensures var m0 := l0[index / 64 := Clear(l0[index / 64], index % 64)];
            var m1 := l1[index / 4096 := Clear(l1[index / 4096], index / 64 % 64)];
            var m2 := l2[index / 262144 := Clear(l2[index / 262144], index / 4096 % 64)];
            && Within(m0, bound) && (forall t :: 0 <= t < 64 * |l0| ==> (In(m0, t) <==> t != index && In(l0, t)))
            && (m0[index / 64] != 0 ==> Summarises(l1, m0))
            && (m0[index / 64] == 0 ==> Summarises(m1, m0) && Summarises(if m1[index / 4096] != 0 then l2 else m2, m1))
  {
    hide Bit, Clear, Summarises, Within, In;
    SummaryIndex(l2, l1, l0, index);
    SummaryHas(l1, l0, index);
    WithoutKeepsSummary(l1, l0, index);
    WithoutKeepsSummary(l2, l1, index / 64);
    WithoutKeepsWithin(l0, bound, index);
    forall t | 0 <= t < 64 * |l0| ensures In(Without(l0, index), t) <==> t != index && In(l0, t) {
      WithoutMembers(l0, index, t);
    }
  }

  lemma SummaryHas(upper: seq<bv64>, lower: seq<bv64>, t: nat)
    requires Summarises(upper, lower) && t < 64 * |lower| && In(lower, t)
    ensures t / 64 < 64 * |upper| && In(upper, t / 64)
  {
    hide Bit;
    WordHolds(lower, t);
  }

  lemma NothingIn(words: seq<bv64>)
    requires forall w :: 0 <= w < |words| ==> words[w] == 0
    ensures forall t :: 0 <= t < 64 * |words| ==> !In(words, t)
  {
    hide Bit;
    forall t | 0 <= t < 64 * |words| ensures !In(words, t) {
      SomeBit(words[t / 64]);
    }
  }

  lemma NothingBelow(upper: seq<bv64>, lower: seq<bv64>)
    requires Summarises(upper, lower) && forall t :: 0 <= t < 64 * |upper| ==> !In(upper, t)
    ensures forall t :: 0 <= t < 64 * |lower| ==> !In(lower, t)
  {
    hide Bit;
    assert forall w :: 0 <= w < |lower| ==> lower[w] == 0 by {
      assert forall w :: 0 <= w < |lower| ==> !In(upper, w);
    }
    NothingIn(lower);
  }

  lemma TickArithmetic(offset: nat, tick: int)
    requires tick >= 1 && offset % tick == 0
    ensures offset / tick >= 0 && (offset / tick) * tick == offset
  {
  }

  lemma TickOf(offset: int, tick: int, t: nat)
    requires tick >= 1 && offset == t * tick
    ensures offset >= 0 && offset % tick == 0 && offset / tick == t
  {
    var d, r := offset / tick, offset % tick;
    assert offset == d * tick + r;
    assert (t - d) * tick == r;
    MultipleBound(t - d, tick);
  }
}

/** The log-linear latency histogram. */
module Histograms {
  import opened Arithmetic
  import opened Types

  /** The place of the highest bit set: sixty-three less the leading zeros of a 64-bit word. */
  function Log2(n: nat): nat {
    if n < 2 then 0 else 1 + Log2(n / 2)
  }

  lemma {:induction false} Pow2Add(j: nat, k: nat)
    ensures Pow2(j + k) == Pow2(j) * Pow2(k)
  {
    if j > 0 {
      Pow2Add(j - 1, k);
      Associates(2, Pow2(j - 1), Pow2(k));
    }
  }

  lemma Associates(a: nat, b: nat, c: nat)
    ensures a * (b * c) == a * b * c
  {
  }

  lemma {:induction false} Log2Bounds(n: nat)
    requires n >= 1
    ensures Pow2(Log2(n)) <= n < 2 * Pow2(Log2(n))
  {
    if n >= 2 {
      Log2Bounds(n / 2);
    }
  }

  lemma {:induction false} Log2Is(n: nat, k: nat)
    requires Pow2(k) <= n < 2 * Pow2(k)
    ensures Log2(n) == k
  {
    if k > 0 {
      Log2Is(n / 2, k - 1);
    } else {
      assert Pow2(0) == 1;
    }
  }

  /** The resolution: `bits` significant bits, half of them worth of sub-buckets per doubling. */
  datatype Shape = Shape(bits: nat)
  {
    predicate Ok() { bits >= 1 }

    function Half(): (h: nat)
      requires Ok()
      ensures h >= 1
    {
      Pow2(bits - 1)
    }

    /** The magnitude of the value with the sub-bucket mask joined on: values inside the linear
        range all have that of the mask. */
    function Magnitude(value: nat): nat
      requires Ok()
    {
      if value < 2 * Half() then bits - 1 else Log2(value)
    }

    function BucketOf(value: nat): nat
      requires Ok()
    {
      if Magnitude(value) >= bits - 1 then Magnitude(value) - (bits - 1) else 0
    }

    function IndexFor(value: nat): int
      requires Ok()
    {
      var bucket := BucketOf(value);
      var sub := value / Pow2(bucket);
      if bucket == 0 then sub else (bucket + 1) * Half() + (sub - Half())
    }

    function BucketAt(index: nat): nat
      requires Ok()
    {
      if index < 2 * Half() then 0 else (index - 2 * Half()) / Half() + 1
    }

    function LowestAt(index: nat): nat
      requires Ok()
    {
      if index < 2 * Half() then index else (index % Half() + Half()) * Pow2(BucketAt(index))
    }

    function HighestAt(index: nat): nat
      requires Ok()
    {
      if index < 2 * Half() then index else LowestAt(index) + Pow2(BucketAt(index)) - 1
    }
  }

  /** Above the linear range, an index is a bucket and a sub-bucket of its upper half. */
  lemma IndexParts(index: nat, half: nat)
    requires half >= 1 && index >= 2 * half
    ensures var k, sub := (index - 2 * half) / half + 1, index % half + half;
            half <= sub < 2 * half && index == k * half + sub
  {
    var q := index / half;
    assert index == q * half + index % half;
    QuotientIs(index - 2 * half, half, q - 2);
    assert (q - 2) * half == q * half - 2 * half;
    assert (q - 1) * half == q * half - half;
    assert (q - 2 + 1) * half == q * half - half;
  }

  lemma PartsUnique(k: nat, sub: nat, half: nat)
    requires half >= 1 && half <= sub < 2 * half && k >= 1
    ensures var index := k * half + sub;
            index >= 2 * half && (index - 2 * half) / half + 1 == k && index % half + half == sub
  {
    var index := k * half + sub;
    MultipleBound(k, half);
    assert index - 2 * half == (k - 1) * half + (sub - half);
    assert (k - 1 + 1) * half == (k - 1) * half + half;
    QuotientIs(index - 2 * half, half, k - 1);
    assert index == (k + 1) * half + (sub - half);
    assert (k + 1 + 1) * half == (k + 1) * half + half;
    QuotientIs(index, half, k + 1);
  }

  /** What the bucket of a value above the linear range is. */
  lemma BucketFacts(s: Shape, value: nat)
    requires s.Ok() && value >= 2 * s.Half()
    ensures var k := s.BucketOf(value); var sub := value / Pow2(k);
            k >= 1 && s.Half() <= sub < 2 * s.Half() && sub * Pow2(k) <= value < (sub + 1) * Pow2(k)
  {
    hide Log2, Pow2;
    var m, h := Log2(value), s.Half();
    Log2Bounds(value);
    AtLeastBits(s, value);
    var k := m - (s.bits - 1);
    Pow2Add(s.bits - 1, k);
    QuotientRange(value, Pow2(k), h);
  }

  lemma QuotientRange(n: nat, p: nat, h: nat)
    requires p > 0 && h * p <= n < 2 * (h * p)
    ensures h <= n / p < 2 * h && n / p * p <= n < (n / p + 1) * p
  {
    QuotientIs(n, p, n / p);
    QuotientAtLeast(n, p, h);
    Associates(2, h, p);
    QuotientAtLeast(n, p, 2 * h);
  }

  lemma AtLeastBits(s: Shape, value: nat)
    requires s.Ok() && value >= 2 * s.Half()
    ensures Log2(value) >= s.bits
  {
    Log2Bounds(value);
    if Log2(value) < s.bits {
      Pow2Grows(Log2(value) + 1, s.bits);
    }
    assert Pow2(s.bits) == 2 * s.Half();
  }

  lemma {:induction false} Pow2Grows(j: nat, k: nat)
    requires j <= k
    ensures Pow2(j) <= Pow2(k)
  {
    if j < k {
      Pow2Grows(j, k - 1);
    }
  }

  lemma Linear(s: Shape, value: nat)
    requires s.Ok() && value < 2 * s.Half()
    ensures s.IndexFor(value) == value
  {
    assert Pow2(0) == 1;
  }

  lemma IndexHolds(s: Shape, value: nat)
    requires s.Ok()
    ensures s.IndexFor(value) >= 0 && s.LowestAt(s.IndexFor(value)) <= value <= s.HighestAt(s.IndexFor(value))
  {
    hide Pow2, Log2, Shape.Half;
    if value < 2 * s.Half() {
      Linear(s, value);
    } else {
      BucketFacts(s, value);
      var k, h := s.BucketOf(value), s.Half();
      var sub := value / Pow2(k);
      PartsUnique(k, sub, h);
      NextMultiple(sub, Pow2(k));
      NextMultiple(k, h);
    }
  }

  lemma NextMultiple(q: nat, d: nat)
    ensures (q + 1) * d == q * d + d
  {
  }

  lemma Products(half: nat, sub: nat, p: nat)
    requires half <= sub < 2 * half
    ensures half * p <= sub * p && (sub + 1) * p <= 2 * (half * p)
  {
    var a, b := sub - half, 2 * half - sub - 1;
    assert sub * p == half * p + a * p;
    assert 2 * (half * p) == (sub + 1) * p + b * p;
  }

  lemma HeldBy(s: Shape, value: nat, index: nat)
    requires s.Ok() && s.LowestAt(index) <= value <= s.HighestAt(index)
    ensures s.IndexFor(value) == index
  {
    hide Log2, Shape.Half;
    var h := s.Half();
    if index < 2 * h {
      Linear(s, value);
    } else {
      IndexParts(index, h);
      var k, sub := s.BucketAt(index), index % h + h;
      var p := Pow2(k);
      NextMultiple(sub, p);
      NextMultiple(k, h);
      Products(h, sub, p);
      TwiceHalf(s, k);
      Log2Is(value, s.bits - 1 + k);
      QuotientIs(value, p, sub);
    }
  }

  lemma TwiceHalf(s: Shape, k: nat)
    requires s.Ok() && k >= 1
    ensures Pow2(s.bits - 1 + k) == s.Half() * Pow2(k) && s.Half() * Pow2(k) >= 2 * s.Half()
  {
    Pow2Add(s.bits - 1, k);
    Associates(s.Half(), 2, Pow2(k - 1));
    MultipleBound(Pow2(k - 1), 2 * s.Half());
  }

  /** The buckets partition the values: a value's index is the one whose range holds it. */
  lemma Partition(s: Shape, value: nat, index: nat)
    requires s.Ok()
    ensures s.IndexFor(value) == index <==> s.LowestAt(index) <= value <= s.HighestAt(index)
  {
    IndexHolds(s, value);
    if s.LowestAt(index) <= value <= s.HighestAt(index) {
      HeldBy(s, value, index);
    }
  }

  /** Larger values have larger indices, or the same. */
  lemma Monotone(s: Shape, v: nat, w: nat)
    requires s.Ok() && v <= w
    ensures s.IndexFor(v) <= s.IndexFor(w)
  {
    hide Shape.IndexFor, Shape.LowestAt, Shape.HighestAt;
    IndexHolds(s, v);
    IndexHolds(s, w);
    var i, j := s.IndexFor(v), s.IndexFor(w);
    if j < i {
      RangesOrdered(s, j, i);
    }
  }

  /** The ranges follow one another without a gap. */
  lemma Adjacent(s: Shape, index: nat)
    requires s.Ok()
    ensures s.LowestAt(index) <= s.HighestAt(index) && s.LowestAt(index + 1) == s.HighestAt(index) + 1
  {
    hide Log2, Shape.Half;
    var h := s.Half();
    if index >= 2 * h {
      IndexParts(index, h);
      var k, sub := s.BucketAt(index), index % h + h;
      NextMultiple(sub, Pow2(k));
      if sub + 1 < 2 * h {
        PartsUnique(k, sub + 1, h);
      } else {
        NextMultiple(k, h);
        PartsUnique(k + 1, h, h);
        Associates(h, 2, Pow2(k));
      }
    } else if index + 1 == 2 * h {
      PartsUnique(1, h, h);
      assert Pow2(0) == 1 && Pow2(1) == 2;
    }
  }

  lemma {:induction false} RangesOrdered(s: Shape, i: nat, j: nat)
    requires s.Ok() && i < j
    ensures s.HighestAt(i) < s.LowestAt(j)
  {
    hide Shape.LowestAt, Shape.HighestAt;
    Adjacent(s, j - 1);
    if i < j - 1 {
      RangesOrdered(s, i, j - 1);
    }
  }

  /** Above the linear range a bucket is no wider than its lowest value over 2^(bits - 1): the
      values in it agree to that precision. */
  lemma Precision(s: Shape, index: nat)
    requires s.Ok() && index >= 2 * s.Half()
    ensures (s.HighestAt(index) - s.LowestAt(index) + 1) * Pow2(s.bits - 1) <= s.LowestAt(index)
  {
    hide Log2;
    var k, sub := s.BucketAt(index), index % s.Half() + s.Half();
    Products(s.Half(), sub, Pow2(k));
    IndexParts(index, s.Half());
    Commutes(s.Half(), Pow2(k));
  }

  /** And no finer than it needs to be: one bit less of a value in it than `bits` is told apart. */
  lemma Coarseness(s: Shape, index: nat)
    requires s.Ok()
    ensures index < Pow2(s.bits) ==> s.LowestAt(index) == index == s.HighestAt(index)
    ensures index >= Pow2(s.bits) ==>
              s.HighestAt(index) < (s.HighestAt(index) - s.LowestAt(index) + 1) * Pow2(s.bits)
  {
    hide Log2;
    var h := s.Half();
    assert Pow2(s.bits) == 2 * h;
    if index >= 2 * h {
      var k, sub := s.BucketAt(index), index % h + h;
      IndexParts(index, h);
      Products(h, sub, Pow2(k));
      NextMultiple(sub, Pow2(k));
      Commutes(2 * h, Pow2(k));
      Associates(2, h, Pow2(k));
    }
  }

  lemma Commutes(a: nat, b: nat)
    ensures a * b == b * a
  {
  }

  /** For values of 64 bits no shift reaches the width of a word, and no bucket ends past it. */
  lemma BucketsFit(s: Shape, top: nat, index: nat)
    requires s.Ok() && top < Pow2(64) && index <= s.IndexFor(top)
    ensures s.BucketAt(index) < 64 && (index >= 2 * s.Half() ==> s.HighestAt(index) < Pow2(64))
  {
    hide Pow2, Log2, Shape.IndexFor, Shape.Half;
    var last := s.IndexFor(top);
    IndexHolds(s, top);
    if index < last {
      RangesOrdered(s, index, last);
    }
    Adjacent(s, index);
    if index >= 2 * s.Half() {
      IndexParts(index, s.Half());
      var k, sub := s.BucketAt(index), index % s.Half() + s.Half();
      Products(s.Half(), sub, Pow2(k));
      NextMultiple(sub, Pow2(k));
      TwiceHalf(s, k);
      BelowPower(s.bits - 1 + k, 64, s.LowestAt(index));
    }
  }

  lemma BelowPower(j: nat, k: nat, n: nat)
    requires Pow2(j) <= n < Pow2(k)
    ensures j < k && 2 * Pow2(j) <= Pow2(k)
  {
    if k <= j {
      Pow2Grows(k, j);
    }
    Pow2Grows(j + 1, if j < k then k else j + 1);
    assert Pow2(j + 1) == 2 * Pow2(j);
  }

  // ----- what has been recorded

  /** The samples inside the range, by what is asked of them. */
  function Within(ss: seq<nat>, top: nat): nat {
    if ss == [] then 0 else Within(ss[..|ss| - 1], top) + if ss[|ss| - 1] <= top then 1 else 0
  }

  function Sum(ss: seq<nat>, top: nat): nat {
    if ss == [] then 0 else Sum(ss[..|ss| - 1], top) + if ss[|ss| - 1] <= top then ss[|ss| - 1] else 0
  }

  function Largest(ss: seq<nat>): nat {
    if ss == [] then 0 else var m := Largest(ss[..|ss| - 1]); if ss[|ss| - 1] > m then ss[|ss| - 1] else m
  }

  /** Defined once a sample is inside the range. */
  function Smallest(ss: seq<nat>, top: nat): nat {
    if ss == [] then 0
    else
      var prefix, x := ss[..|ss| - 1], ss[|ss| - 1];
      if x > top then Smallest(prefix, top)
      else if Within(prefix, top) == 0 || x < Smallest(prefix, top) then x else Smallest(prefix, top)
  }

  function Tally(s: Shape, ss: seq<nat>, top: nat, index: nat): nat
    requires s.Ok()
  {
    if ss == [] then 0
    else
      var x := ss[|ss| - 1];
      Tally(s, ss[..|ss| - 1], top, index) + if x <= top && s.IndexFor(x) == index then 1 else 0
  }

  /** How many lie in buckets before `index`. */
  function Before(s: Shape, ss: seq<nat>, top: nat, index: nat): nat
    requires s.Ok()
  {
    if ss == [] then 0
    else
      var x := ss[|ss| - 1];
      Before(s, ss[..|ss| - 1], top, index) + if x <= top && s.IndexFor(x) < index then 1 else 0
  }

  /** How many are at most `bound`: the k-th smallest is at most `bound` exactly if this is k or more. */
  function AtMost(ss: seq<nat>, top: nat, bound: int): nat {
    if ss == [] then 0
    else
      var x := ss[|ss| - 1];
      AtMost(ss[..|ss| - 1], top, bound) + if x <= top && x <= bound then 1 else 0
  }

  lemma {:induction false} BeforeNext(s: Shape, ss: seq<nat>, top: nat, index: nat)
    requires s.Ok()
    ensures Before(s, ss, top, index + 1) == Before(s, ss, top, index) + Tally(s, ss, top, index)
    ensures index == 0 ==> Before(s, ss, top, index) == 0
  {
    hide Shape.IndexFor;
    if ss != [] {
      BeforeNext(s, ss[..|ss| - 1], top, index);
      IndexHolds(s, ss[|ss| - 1]);
    }
  }

  lemma {:induction false} BeforeAll(s: Shape, ss: seq<nat>, top: nat)
    requires s.Ok()
    ensures s.IndexFor(top) >= 0 && Before(s, ss, top, s.IndexFor(top) + 1) == Within(ss, top)
  {
    hide Shape.IndexFor;
    IndexHolds(s, top);
    if ss != [] {
      BeforeAll(s, ss[..|ss| - 1], top);
      if ss[|ss| - 1] <= top {
        Monotone(s, ss[|ss| - 1], top);
      }
    }
  }

  /** Everything up to a bucket is at most its highest value and at most the largest sample. */
  lemma {:induction false} BeforeAtMost(s: Shape, ss: seq<nat>, top: nat, index: nat, bound: nat)
    requires s.Ok() && Largest(ss) <= bound
    ensures Before(s, ss, top, index + 1) <= AtMost(ss, top, Min(s.HighestAt(index), bound))
  {
    hide Shape.IndexFor, Shape.HighestAt, Shape.LowestAt;
    if ss != [] {
      var x := ss[|ss| - 1];
      BeforeAtMost(s, ss[..|ss| - 1], top, index, bound);
      IndexHolds(s, x);
      var i := s.IndexFor(x);
      if i < index {
        RangesOrdered(s, i, index);
        Adjacent(s, index);
      }
    }
  }

  /** Nothing below a bucket's lowest value is in that bucket or a later one. */
  lemma {:induction false} BelowIsBefore(s: Shape, ss: seq<nat>, top: nat, index: nat)
    requires s.Ok()
    ensures AtMost(ss, top, s.LowestAt(index) - 1) <= Before(s, ss, top, index)
  {
    hide Shape.IndexFor, Shape.HighestAt, Shape.LowestAt;
    if ss != [] {
      var x := ss[|ss| - 1];
      BelowIsBefore(s, ss[..|ss| - 1], top, index);
      IndexHolds(s, x);
      var i := s.IndexFor(x);
      if i > index {
        RangesOrdered(s, index, i);
        Adjacent(s, index);
      }
    }
  }

  /** Recording more samples, told for each figure the histogram keeps. */
  lemma {:induction false} FiguresConcat(ss: seq<nat>, ts: seq<nat>, top: nat)
    ensures Within(ss + ts, top) == Within(ss, top) + Within(ts, top)
    ensures Sum(ss + ts, top) == Sum(ss, top) + Sum(ts, top)
    ensures Largest(ss + ts) == if Largest(ts) > Largest(ss) then Largest(ts) else Largest(ss)
    ensures Within(ts, top) == 0 ==> Smallest(ss + ts, top) == Smallest(ss, top)
    ensures Within(ts, top) > 0 ==>
              Smallest(ss + ts, top) ==
                if Within(ss, top) == 0 || Smallest(ts, top) < Smallest(ss, top) then Smallest(ts, top)
                else Smallest(ss, top)
  {
    if ts == [] {
      assert ss + ts == ss;
    } else {
      assert (ss + ts)[..|ss + ts| - 1] == ss + ts[..|ts| - 1];
      FiguresConcat(ss, ts[..|ts| - 1], top);
    }
  }

  lemma {:induction false} TallyConcat(s: Shape, ss: seq<nat>, ts: seq<nat>, top: nat, index: nat)
    requires s.Ok()
    ensures Tally(s, ss + ts, top, index) == Tally(s, ss, top, index) + Tally(s, ts, top, index)
  {
    hide Shape.IndexFor;
    if ts == [] {
      assert ss + ts == ss;
    } else {
      assert (ss + ts)[..|ss + ts| - 1] == ss + ts[..|ts| - 1];
      TallyConcat(s, ss, ts[..|ts| - 1], top, index);
    }
  }

  class Histogram {
    const shape: Shape
    const maxValue: nat
    var counts: seq<nat>
    var count: nat
    var total: nat
    var smallest: nat
    var largest: nat
    var overflow: nat
    ghost var samples: seq<nat>

    /** The figures are those of the samples recorded. */
    ghost predicate Valid()
      reads this
    {
      && shape.Ok() && shape.IndexFor(maxValue) >= 0 && |counts| == shape.IndexFor(maxValue) + 1
      && (forall i :: 0 <= i < |counts| ==> counts[i] == Tally(shape, samples, maxValue, i))
      && count == Within(samples, maxValue) && total == Sum(samples, maxValue)
      && count + overflow == |samples| && largest == Largest(samples)
      && (count > 0 ==> smallest == Smallest(samples, maxValue))
    }

    constructor (top: nat, significantBits: nat)
      ensures Valid() && samples == []
      ensures shape.bits == (if significantBits < 2 then 2 else if significantBits > 20 then 20 else significantBits)
      ensures maxValue == if top < Pow2(shape.bits) then Pow2(shape.bits) else top
    {
      var bits := if significantBits < 2 then 2 else if significantBits > 20 then 20 else significantBits;
      var limit := if top < Pow2(bits) then Pow2(bits) else top;
      shape := Shape(bits);
      maxValue := limit;
      IndexHolds(Shape(bits), limit);
      counts := seq(Shape(bits).IndexFor(limit) + 1, i => 0);
      count, total, smallest, largest, overflow := 0, 0, 0, 0, 0;
      samples := [];
    }

    method Record(value: nat)
      requires Valid()
      modifies this
      ensures Valid() && samples == old(samples) + [value]
    {
      hide Shape.IndexFor, Shape.Ok;
      assert (samples + [value])[..|samples|] == samples;
      samples := samples + [value];
      if value > maxValue {
        overflow := overflow + 1;
        if value > largest {
          largest := value;
        }
        return;
      }
      IndexHolds(shape, value);
      Monotone(shape, value, maxValue);
      var i := shape.IndexFor(value);
      counts := counts[i := counts[i] + 1];
      count := count + 1;
      total := total + value;
      if value > largest {
        largest := value;
      }
      if count == 1 || value < smallest {
        smallest := value;
      }
    }

    /** The value reported for a rank: at least the sample of that rank, never more than the
        largest sample, and in the same bucket as the sample of that rank. */
    method ValueAtRank(target: nat) returns (value: nat, ghost bucket: nat)
      requires Valid()
      ensures 1 <= target <= count ==>
                && AtMost(samples, maxValue, value) >= target
                && AtMost(samples, maxValue, shape.LowestAt(bucket) - 1) < target
                && value <= shape.HighestAt(bucket)
      ensures value <= largest || target == 0
      ensures target > count ==> value == largest
    {
      hide Shape.IndexFor, Shape.HighestAt, Shape.LowestAt, Before, AtMost, Tally;
      var seen := 0;
      BeforeNext(shape, samples, maxValue, 0);
      BeforeAll(shape, samples, maxValue);
      for i := 0 to |counts|
        invariant seen == Before(shape, samples, maxValue, i)
        invariant i > 0 ==> seen < target
      {
        BeforeNext(shape, samples, maxValue, i);
        ghost var earlier := seen;
        seen := seen + counts[i];
        if seen >= target {
          BeforeAtMost(shape, samples, maxValue, i, largest);
          BelowIsBefore(shape, samples, maxValue, i);
          BeforeGrows(shape, samples, maxValue, i + 1);
          bucket := i;
          return Min(shape.HighestAt(i), largest), i;
        }
      }
      return largest, 0;
    }

    /** Merging is recording both streams. */
    method Merge(other: Histogram)
      requires Valid() && other.Valid() && other.shape == shape && other.maxValue == maxValue
      modifies this
      ensures Valid() && samples == old(samples) + old(other.samples)
    {
      hide Shape.IndexFor, Tally, Within, Sum, Largest, Smallest;
      FiguresConcat(samples, other.samples, maxValue);
      ghost var theirs, all := other.samples, samples + other.samples;
      for i := 0 to |counts|
        invariant |counts| == |old(counts)|
        invariant forall j :: i <= j < |counts| ==> counts[j] == old(counts[j])
        invariant forall j :: 0 <= j < i ==> counts[j] == Tally(shape, all, maxValue, j)
        modifies this`counts
      {
        TallyConcat(shape, samples, theirs, maxValue, i);
        counts := counts[i := counts[i] + other.counts[i]];
      }
      count := count + other.count;
      total := total + other.total;
      overflow := overflow + other.overflow;
      if other.largest > largest {
        largest := other.largest;
      }
      if count == other.count || (other.count > 0 && other.smallest < smallest) {
        smallest := other.smallest;
      }
      samples := all;
    }
  }

  lemma {:induction false} BeforeGrows(s: Shape, ss: seq<nat>, top: nat, index: nat)
    requires s.Ok()
    ensures Before(s, ss, top, index) <= Within(ss, top)
  {
    if ss != [] {
      BeforeGrows(s, ss[..|ss| - 1], top, index);
    }
  }
}

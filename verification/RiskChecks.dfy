/** The risk checks against plain arithmetic, and the rate gate against its bound. */
module RiskChecks {
  import opened Arithmetic
  import opened Types
  import opened Commands
  import opened Risk

  // ----- fixed-width checks

  /** The notional test rejects exactly the orders whose true notional is over the limit,
      also where the product does not fit 64 bits. */
  lemma NotionalExact(price: U64, quantity: U64, limit: U64)
    ensures NotionalExceeds(price, quantity, limit) <==> price * quantity > limit
  {
    var product := price * quantity;
    var notional := Wrapped(product);
    WrapsDown(product);
    if quantity != 0 {
      QuotientAtLeast(notional, quantity, price);
      QuotientAtLeast(product, quantity, price);
      QuotientAtLeast(product, quantity, price + 1);
      assert (price + 1) * quantity == product + quantity;
    }
  }

  /** The collar never lets through a price outside its band. */
  lemma CollarSound(deviation: nat, reference: nat, collar: U64)
    requires collar > 0 && !CollarRejects(deviation, reference, collar)
    ensures deviation * 10_000 <= reference * collar
  {
    WrapsDown(deviation * 10_000);
    WrapsDown(reference * collar);
    QuotientAtLeast(U64_MAX, collar, reference);
    QuotientAtLeast(U64_MAX, 10_000, deviation);
  }

  /** The collar is wrong exactly when the deviation is past the point where it would not fit
      and the band is wider still: then it turns away a price inside the band. */
  lemma CollarExact(deviation: nat, reference: nat, collar: U64)
    requires collar > 0
    ensures (CollarRejects(deviation, reference, collar) <==> deviation * 10_000 > reference * collar)
            <==> (deviation <= U64_MAX / 10_000 || deviation * 10_000 > reference * collar)
  {
    WrapsDown(deviation * 10_000);
    WrapsDown(reference * collar);
    QuotientAtLeast(U64_MAX, collar, reference);
    QuotientAtLeast(U64_MAX, 10_000, deviation);
  }

  /** Such a price: inside a band of twice the reference, and rejected. */
  lemma CollarTooStrict()
    ensures var reference, deviation := 0x2000_0000_0000_0000, 0x2000_0000_0000_0000;
            deviation * 10_000 <= reference * 20_000 && CollarRejects(deviation, reference, 20_000)
  {
  }

  /** In the default price band the collar is exact. */
  lemma CollarExactInDefaultBand(price: int, reference: int, collar: U64)
    requires 1 <= price <= 65_535 && 1 <= reference <= 65_535 && collar > 0
    ensures var deviation := if price > reference then price - reference else reference - price;
            CollarRejects(deviation, reference, collar) <==> deviation * 10_000 > reference * collar
  {
    var deviation := if price > reference then price - reference else reference - price;
    CollarExact(deviation, reference, collar);
  }

  /** What the account would be long and short, were everything working to fill, this order
      included: on the order's own side, and on the other. */
  function OwnSide(e: Exposure, side: Side, quantity: nat): int {
    Signed(e.net, side) + e.Working(side) + quantity
  }

  function OtherSide(e: Exposure, side: Side): int {
    e.Working(side.Opposite()) - Signed(e.net, side)
  }

  function Signed(net: int, side: Side): int { if side.Buy? then net else -net }

  /** Past the cap, in integers of any size. */
  predicate Over(e: Exposure, side: Side, quantity: nat, cap: nat) {
    OwnSide(e, side, quantity) > cap || OtherSide(e, side) > cap
  }

  /** Over the cap once `cut` is taken off, and still not read as negative. */
  predicate Shows(n: int, cap: int, cut: int) {
    cut + cap < n < cut + TWO63
  }

  /** When the position test answers right.  Below 2^63 the cap means what it says: both projections
      are below 2^63, or one of them shows as over the cap whatever is cut off it.  From 2^63 on the
      cap is read as negative: the test is right where it has to refuse and one projection shows, or
      where it has to admit and both are read below that. */
  predicate PositionReadRight(e: Exposure, side: Side, quantity: nat, cap: nat) {
    var own, other := OwnSide(e, side, quantity), OtherSide(e, side);
    if cap < TWO63 then
      || (own < TWO63 && other < TWO63)
      || Shows(own, cap, 0) || Shows(own, cap, TWO64) || Shows(own, cap, TWO64 + TWO64)
      || Shows(other, cap, 0) || Shows(other, cap, TWO64)
    else
      var c := cap - TWO64;
      || other > cap
      || (own > cap && (own < TWO64 + TWO63 || own > TWO64 + cap || c < other < TWO63))
      || (own <= cap && (own <= c || own >= TWO63) && (other <= c || other >= TWO63))
  }

  /** The test compares the two projections, each cut to 64 bits once. */
  lemma ExceedsReads(e: Exposure, side: Side, quantity: U64, cap: U64)
    ensures PositionExceeds(e, side, quantity, cap) <==>
            || AsSigned(OwnSide(e, side, quantity)) > AsSigned(cap)
            || AsSigned(OtherSide(e, side)) > AsSigned(cap)
  {
    hide AsSigned, Wrapped;
    var buy := e.workingBuy + if side.Buy? then quantity else 0;
    var sell := e.workingSell + if side.Sell? then quantity else 0;
    SignedWrapped(e.net, buy);
    SignedWrapped(0 - e.net, sell);
  }

  lemma ReadAs(n: int, lap: int)
    requires lap * TWO64 - TWO63 <= n < lap * TWO64 + TWO63
    ensures AsSigned(n) == n - lap * TWO64
  {
  }

  /** For every order and every cap: the test refuses what would be past the cap, and nothing else,
      exactly when the sums are read right. */
  lemma PositionExact(e: Exposure, side: Side, quantity: U64, cap: U64)
    requires e.workingBuy <= U64_MAX && e.workingSell <= U64_MAX
    ensures (PositionExceeds(e, side, quantity, cap) <==> Over(e, side, quantity, cap))
            <==> PositionReadRight(e, side, quantity, cap)
  {
    hide AsSigned, PositionExceeds;
    var own, other := OwnSide(e, side, quantity), OtherSide(e, side);
    ExceedsReads(e, side, quantity, cap);
    ReadAs(cap, if cap < TWO63 then 0 else 1);
    ReadAs(own, if own < TWO63 then 0 else if own < TWO64 + TWO63 then 1 else 2);
    ReadAs(other, if other < TWO63 then 0 else 1);
  }

  lemma FlatSides(side: Side, quantity: nat)
    ensures OwnSide(FLAT, side, quantity) == quantity && OtherSide(FLAT, side) == 0
  {
  }

  /** Such orders: of 2^63 and more, which pass every cap below that where nothing is held or working. */
  lemma PositionMisread(side: Side, quantity: U64, cap: U64)
    requires quantity >= TWO63 > cap
    ensures !PositionExceeds(FLAT, side, quantity, cap) && Over(FLAT, side, quantity, cap)
    ensures !PositionReadRight(FLAT, side, quantity, cap)
  {
    hide PositionExceeds, OwnSide, OtherSide;
    FlatSides(side, quantity);
    PositionExact(FLAT, side, quantity, cap);
  }

  /** And such caps: of 2^63 and more, which let such an account send nothing at all. */
  lemma CapMisread(side: Side, quantity: U64, cap: U64)
    requires cap >= TWO63
    ensures PositionExceeds(FLAT, side, quantity, cap)
    ensures PositionReadRight(FLAT, side, quantity, cap) <==> quantity > cap
  {
    hide PositionExceeds, OwnSide, OtherSide;
    FlatSides(side, quantity);
    PositionExact(FLAT, side, quantity, cap);
  }

  /** The sum itself can pass 2^63: an account that is 2^62 long may buy 2^62 more under a cap of 2^62. */
  lemma ProjectionMisread()
    ensures var e, cap := Exposure(0x4000_0000_0000_0000, 0, 0), 0x4000_0000_0000_0000;
            && !PositionExceeds(e, Buy, cap, cap) && Over(e, Buy, cap, cap) && !PositionReadRight(e, Buy, cap, cap)
  {
    hide PositionExceeds, AsSigned, Wrapped;
    var n := 0x4000_0000_0000_0000;
    PositionExact(Exposure(n, 0, 0), Buy, n, n);
  }

  // ----- the whole decision

  /** Everything a new order of a configured account must meet but the collar and the position
      cap, in integers of any size. */
  predicate Affordable(r: RiskState, c: NewOrder, now: int)
    requires c.account in r.accounts
  {
    var a := r.accounts[c.account];
    && OnTime(a.limits, a.arrival, now)
    && c.quantity <= a.limits.maxOrderQuantity
    && (c.kind.Limit? && c.price > 0 ==> c.price * c.quantity <= a.limits.maxOrderNotional)
    && a.openOrders < a.limits.maxOpenOrders
  }

  /** No cap, or within it. */
  predicate Holdable(a: Account, c: NewOrder) {
    a.limits.maxPosition == U64_MAX || !Over(a.On(c.instrument), c.side, c.quantity, a.limits.maxPosition)
  }

  /** A collar of 500 basis points around 10000 admits 9500 and 10500, and neither 9499 nor 10501. */
  lemma CollarOfFivePercent(r: RiskState, c: NewOrder)
    requires c.instrument in r.instruments && r.instruments[c.instrument] == Controls(500, 10_000)
    requires c.kind.Limit? && c.price > 0
    ensures Collar(r, c) == if 9_500 <= c.price <= 10_500 then Accepted else PriceCollar
  {
  }

  /** Without a collar, a reference or a price of its own an order passes. */
  lemma NothingToCollar(r: RiskState, c: NewOrder)
    requires c.instrument !in r.instruments || r.instruments[c.instrument].collarBps == 0
             || r.instruments[c.instrument].reference <= 0 || c.kind.Market? || c.price <= 0
    ensures Collar(r, c) == Accepted
  {
  }

  /** An account that nobody configured is not limited, before and after it first rests an order: only
      the collar, and a notional that does not fit 64 bits, can stop it. */
  lemma UnconfiguredStaysFree(r: RiskState, o: Order, c: NewOrder, now: int)
    requires o.account !in r.accounts && c.account == o.account && Collar(r, c) == Accepted
    ensures Check(r, c, now).0 == Accepted
    ensures Check(Committed(r, o), c, now).0 ==
            if c.kind.Limit? && c.price > 0 && c.price * c.quantity >= TWO64 then RiskLimit else Accepted
  {
    hide NotionalExceeds, InsideBand, TooFar;
    var s := Committed(r, o);
    assert s.accounts[o.account].limits == UNLIMITED && s.instruments == r.instruments;
    SameCollar(r, s, c);
    if c.price > 0 {
      NotionalExact(c.price, c.quantity, U64_MAX);
    }
  }

  lemma SameCollar(r: RiskState, s: RiskState, c: NewOrder)
    requires s.instruments == r.instruments
    ensures Collar(s, c) == Collar(r, c)
  {
  }

  /** Where the fixed widths do not change the decision: the order is refused anyway, or it is near
      enough to its reference price and its position is read right. */
  predicate DecidedRight(r: RiskState, c: NewOrder, now: int)
    requires c.account in r.accounts
  {
    var a := r.accounts[c.account];
    Affordable(r, c, now) && InsideBand(r, c) ==>
      if TooFar(r, c) then !Holdable(a, c)
      else a.limits.maxPosition == U64_MAX
           || PositionReadRight(a.On(c.instrument), c.side, c.quantity, a.limits.maxPosition)
  }

  /** The whole decision on any order of a configured account, fixed widths and all, is the decision
      in integers of any size exactly where the widths do not change it. */
  lemma AcceptedExactly(r: RiskState, c: NewOrder, now: int)
    requires c.account in r.accounts
    requires var e := r.accounts[c.account].On(c.instrument);
             e.workingBuy <= U64_MAX && e.workingSell <= U64_MAX
    ensures (Check(r, c, now).0 == Accepted
             <==> Affordable(r, c, now) && InsideBand(r, c) && Holdable(r.accounts[c.account], c))
            <==> DecidedRight(r, c, now)
  {
    hide InsideBand, TooFar, OnTime, PositionExceeds, NotionalExceeds, Over, PositionReadRight;
    var a := r.accounts[c.account];
    if c.price > 0 {
      NotionalExact(c.price, c.quantity, a.limits.maxOrderNotional);
    }
    PositionExact(a.On(c.instrument), c.side, c.quantity, a.limits.maxPosition);
  }

  /** Which reason is given: the rate first, then the collar, then the limits; and asking spends the
      account's budget and nothing else. */
  lemma ReasonsInOrder(r: RiskState, c: NewOrder, now: int)
    ensures var (reject, s) := Check(r, c, now);
            var known := c.account in r.accounts;
            && (reject == RateLimit <==>
                  known && r.accounts[c.account].limits.maxMessagesPerSecond > 0
                  && now < r.accounts[c.account].arrival
                           - (Burst(r.accounts[c.account].limits) - 1) * Interval(r.accounts[c.account].limits))
            && (reject == PriceCollar <==> reject != RateLimit && !(InsideBand(r, c) && !TooFar(r, c)))
            && reject in {RateLimit, PriceCollar, RiskLimit, Accepted}
            && (!known ==> reject in {PriceCollar, Accepted} && s == r)
            && s.instruments == r.instruments && s.accounts.Keys == r.accounts.Keys
            && (forall a :: a in r.accounts && a != c.account ==> s.accounts[a] == r.accounts[a])
            && (known ==>
                  s.accounts[c.account] ==
                    r.accounts[c.account].(arrival := if reject == RateLimit then r.accounts[c.account].arrival
                                                      else NextArrival(r.accounts[c.account].limits,
                                                                       r.accounts[c.account].arrival, now)))
  {
    hide PositionExceeds, NotionalExceeds, InsideBand, TooFar, NextArrival, Interval, Burst;
    if c.account in r.accounts {
      var a := r.accounts[c.account];
      assert a.(arrival := a.arrival) == a && r.accounts[c.account := a] == r.accounts;
    }
  }

  // ----- the rate gate

  /** The arrival time after a run of messages, admitted or not. */
  function ArrivalAfter(limits: AccountLimits, arrival: int, times: seq<int>): int {
    if times == [] then arrival
    else
      var before := ArrivalAfter(limits, arrival, times[..|times| - 1]);
      NextArrival(limits, before, times[|times| - 1])
  }

  /** How many of them get through. */
  function Admitted(limits: AccountLimits, arrival: int, times: seq<int>): nat {
    if times == [] then 0
    else
      var before := ArrivalAfter(limits, arrival, times[..|times| - 1]);
      Admitted(limits, arrival, times[..|times| - 1]) + if OnTime(limits, before, times[|times| - 1]) then 1 else 0
  }

  /** Every admission pushes the arrival time one interval on from the first. */
  lemma {:induction false} ArrivalPushed(limits: AccountLimits, arrival: int, times: seq<int>)
    requires limits.maxMessagesPerSecond > 0 && times != [] && OnTime(limits, arrival, times[0])
    ensures ArrivalAfter(limits, arrival, times) >= times[0] + Admitted(limits, arrival, times) * Interval(limits)
  {
    var n := |times| - 1;
    var prefix := times[..n];
    if n == 0 {
      assert prefix == [];
      assert ArrivalAfter(limits, arrival, prefix) == arrival && Admitted(limits, arrival, prefix) == 0;
    } else {
      ArrivalPushed(limits, arrival, prefix);
      var k := Admitted(limits, arrival, prefix);
      assert (k + 1) * Interval(limits) == k * Interval(limits) + Interval(limits);
    }
  }

  /** The bound on any window: between an admitted first message and an admitted last one, no
      more get through than the burst plus one for every whole interval in between, whatever
      the account sends and whatever its past. */
  lemma WindowBound(limits: AccountLimits, arrival: int, times: seq<int>)
    requires 1 <= limits.maxMessagesPerSecond <= 1_000_000_000 && times != []
    requires OnTime(limits, arrival, times[0])
    requires OnTime(limits, ArrivalAfter(limits, arrival, times[..|times| - 1]), times[|times| - 1])
    ensures Interval(limits) >= 1
    ensures Admitted(limits, arrival, times) <= Burst(limits) + (times[|times| - 1] - times[0]) / Interval(limits)
  {
    hide Interval, Burst;
    var n := |times| - 1;
    var interval, burst := Interval(limits), Burst(limits);
    IntervalPositive(limits);
    BurstPositive(limits);
    var k: int := Admitted(limits, arrival, times);
    var elapsed := times[n] - times[0];
    if n == 0 {
      assert times[..0] == [] && Admitted(limits, arrival, []) == 0;
      QuotientAtLeast(elapsed, interval, 0);
    } else {
      assert times[..n][0] == times[0];
      ArrivalPushed(limits, arrival, times[..n]);
      ProductDifference(k - 1, burst - 1, interval);
      QuotientAtLeast(elapsed, interval, k - burst);
    }
  }

  lemma IntervalPositive(limits: AccountLimits)
    requires 1 <= limits.maxMessagesPerSecond <= 1_000_000_000
    ensures Interval(limits) >= 1
  {
    QuotientAtLeast(1_000_000_000, limits.maxMessagesPerSecond, 1);
  }

  lemma BurstPositive(limits: AccountLimits)
    ensures Burst(limits) >= 1
  {
  }

  lemma ProductSign(a: int, b: int)
    requires b >= 0
    ensures a >= 0 ==> a * b >= 0
    ensures a <= -1 ==> a * b <= -b
  {
  }

  lemma ProductDifference(a: int, b: int, c: int)
    ensures a * c - b * c == (a - b) * c
  {
  }

  /** A message no earlier than the theoretical arrival time is always admitted. */
  lemma PatientIsAdmitted(limits: AccountLimits, arrival: int, now: int)
    requires now >= arrival
    ensures OnTime(limits, arrival, now)
  {
    hide Interval, Burst;
    if limits.maxMessagesPerSecond > 0 {
      BurstPositive(limits);
      ProductSign(Burst(limits) - 1, Interval(limits));
    }
  }

  function Repeated(now: int, n: nat): (times: seq<int>)
    ensures |times| == n && forall i :: 0 <= i < n ==> times[i] == now
  {
    seq(n, i => now)
  }

  /** The next of several messages at once: `k` of them have been admitted. */
  lemma BurstStep(limits: AccountLimits, now: int, k: nat)
    requires 1 <= limits.maxMessagesPerSecond <= 1_000_000_000 && k <= Burst(limits)
    ensures var arrival := now + k * Interval(limits);
            && (OnTime(limits, arrival, now) <==> k < Burst(limits))
            && NextArrival(limits, arrival, now) == now + Min(k + 1, Burst(limits)) * Interval(limits)
  {
    hide Interval, Burst;
    IntervalPositive(limits);
    var interval := Interval(limits);
    ProductDifference(Burst(limits) - 1, k, interval);
    ProductSign(Burst(limits) - 1 - k, interval);
    ProductDifference(k + 1, k, interval);
    ProductSign(k, interval);
  }

  /** The bound is tight: an idle account may send its whole burst at one instant, and not one
      message more. */
  lemma {:induction false} BurstIsExact(limits: AccountLimits, arrival: int, now: int, n: nat)
    requires 1 <= limits.maxMessagesPerSecond <= 1_000_000_000 && arrival <= now
    ensures Admitted(limits, arrival, Repeated(now, n)) == Min(n, Burst(limits))
    ensures ArrivalAfter(limits, arrival, Repeated(now, n)) ==
            if n == 0 then arrival else now + Min(n, Burst(limits)) * Interval(limits)
  {
    hide Interval, Burst, OnTime;
    BurstPositive(limits);
    if n > 0 {
      BurstIsExact(limits, arrival, now, n - 1);
      assert Repeated(now, n)[..n - 1] == Repeated(now, n - 1);
      if n == 1 {
        PatientIsAdmitted(limits, arrival, now);
        assert 1 * Interval(limits) == Interval(limits);
      } else {
        BurstStep(limits, now, Min(n - 1, Burst(limits)));
      }
    }
  }

  /** The limit is per second: within a second of an admitted message no more get through than the
      burst and the rate, where the rate divides the second. */
  lemma RateIsPerSecond(limits: AccountLimits, arrival: int, times: seq<int>)
    requires limits.maxMessagesPerSecond >= 1 && 1_000_000_000 % limits.maxMessagesPerSecond == 0 && times != []
    requires OnTime(limits, arrival, times[0])
    requires OnTime(limits, ArrivalAfter(limits, arrival, times[..|times| - 1]), times[|times| - 1])
    requires times[|times| - 1] - times[0] <= 1_000_000_000
    ensures limits.messageBurst >= 1 ==>
              Admitted(limits, arrival, times) <= limits.messageBurst + limits.maxMessagesPerSecond
    ensures limits.messageBurst == 0 ==> Admitted(limits, arrival, times) <= 1 + limits.maxMessagesPerSecond
  {
    hide ArrivalAfter, Admitted, OnTime;
    var rate, elapsed := limits.maxMessagesPerSecond, times[|times| - 1] - times[0];
    assert rate <= 1_000_000_000;
    WindowBound(limits, arrival, times);
    var interval := Interval(limits);
    assert interval * rate == 1_000_000_000;
    QuotientAtLeast(elapsed, interval, rate + 1);
    assert (rate + 1) * interval == rate * interval + interval;
  }

  /** And nobody who keeps to it is refused: messages that come no faster than the rate get through. */
  lemma {:induction false} SteadyIsAdmitted(limits: AccountLimits, arrival: int, times: seq<int>, pace: nat)
    requires 1 <= limits.maxMessagesPerSecond && pace * limits.maxMessagesPerSecond >= 1_000_000_000
    requires times != [] && times[0] >= arrival
    requires forall i :: 0 < i < |times| ==> times[i] >= times[i - 1] + pace
    ensures Admitted(limits, arrival, times) == |times|
    ensures ArrivalAfter(limits, arrival, times) <= times[|times| - 1] + pace
  {
    hide OnTime;
    var n := |times| - 1;
    PaceIsEnough(limits, pace);
    var before := ArrivalAfter(limits, arrival, times[..n]);
    if n > 0 {
      SteadyIsAdmitted(limits, arrival, times[..n], pace);
    } else {
      assert times[..n] == [];
    }
    PatientIsAdmitted(limits, before, times[n]);
  }

  lemma PaceIsEnough(limits: AccountLimits, pace: nat)
    requires 1 <= limits.maxMessagesPerSecond && pace * limits.maxMessagesPerSecond >= 1_000_000_000
    ensures Interval(limits) <= pace
  {
    var rate := limits.maxMessagesPerSecond;
    QuotientAtLeast(1_000_000_000, rate, pace + 1);
    assert (pace + 1) * rate == pace * rate + rate;
  }

  /** Above 10^9 messages a second the interval rounds to nothing, and the gate stands open for
      anyone whose clock does not run backwards. */
  lemma FasterIsUnlimited(limits: AccountLimits, arrival: int, now: int)
    requires limits.maxMessagesPerSecond > 1_000_000_000 && arrival <= now
    ensures OnTime(limits, arrival, now) && NextArrival(limits, arrival, now) == now
  {
  }
}

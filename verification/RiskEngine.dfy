/** Pre-trade risk: what each account has working and holds, and what it may send. */
module Risk {
  import opened Arithmetic
  import opened Types
  import opened Commands

  const U64_MAX := 0xFFFF_FFFF_FFFF_FFFF
  const TWO64 := 0x1_0000_0000_0000_0000
  const TWO63 := 0x8000_0000_0000_0000

  datatype AccountLimits = AccountLimits(
    maxOrderQuantity: U64,
    maxOrderNotional: U64,
    maxOpenOrders: U32,
    maxPosition: U64,
    maxMessagesPerSecond: U32,
    messageBurst: U32)

  datatype Exposure = Exposure(net: I64, workingBuy: nat, workingSell: nat)
  {
    function Working(side: Side): nat { if side.Buy? then workingBuy else workingSell }

    function WithWorking(side: Side, quantity: nat): Exposure {
      if side.Buy? then this.(workingBuy := quantity) else this.(workingSell := quantity)
    }

    /** Clamped: releasing more than is recorded leaves nothing working. */
    function Released(side: Side, quantity: nat): Exposure {
      WithWorking(side, Working(side) - Min(Working(side), quantity))
    }

    /** One party to a trade: the position is a signed word. */
    function Traded(side: Side, quantity: nat): Exposure {
      Released(side, quantity).(net := Moved(net, if side.Buy? then quantity else -(quantity as int)))
    }
  }

  // ----- 64-bit words

  function Wrapped(n: nat): U64 { n % TWO64 }

  /** A number cut to 64 bits and read in two's complement. */
  function AsSigned(n: int): I64 { (n + TWO63) % TWO64 - TWO63 }

  /** How many times too far round a number is to be read as itself. */
  function Laps(n: int): int { (n + TWO63) / TWO64 }

  lemma SignedLaps(n: int)
    ensures AsSigned(n) == n - TWO64 * Laps(n)
    ensures AsSigned(n) == n <==> -TWO63 <= n < TWO63
  {
  }

  /** A signed word with something added to it. */
  function Moved(net: I64, change: int): I64 { AsSigned(net + change) }

  lemma NotMoved(net: I64)
    ensures Moved(net, 0) == net
  {
  }

  lemma MovedTwice(net: I64, m: int, n: int)
    ensures Moved(Moved(net, m), n) == Moved(net, m + n)
  {
    hide AsSigned;
    SignedAgain(net + m, n);
  }

  lemma SignedTurned(n: int, k: int)
    ensures AsSigned(n + TWO64 * k) == AsSigned(n)
  {
  }

  /** Cutting what is added up as one goes along is cutting the sum. */
  lemma SignedAgain(n: int, m: int)
    ensures AsSigned(AsSigned(n) + m) == AsSigned(n + m)
  {
    hide AsSigned;
    SignedLaps(n);
    SignedTurned(n + m, -Laps(n));
  }

  lemma SignedWrapped(n: int, q: nat)
    ensures AsSigned(n + AsSigned(Wrapped(q))) == AsSigned(n + q)
    ensures AsSigned(n - AsSigned(Wrapped(q))) == AsSigned(n - q)
  {
    hide AsSigned;
    SignedLaps(Wrapped(q));
    assert Wrapped(q) == q + TWO64 * -(q / TWO64);
    var k := -(q / TWO64) - Laps(Wrapped(q));
    assert AsSigned(Wrapped(q)) == q + TWO64 * k;
    SignedTurned(n + q, k);
    SignedTurned(n - q, -k);
  }

  const FLAT := Exposure(0, 0, 0)

  datatype Account = Account(limits: AccountLimits, openOrders: nat, exposure: map<nat, Exposure>, arrival: int)
  {
    function On(instrument: nat): Exposure { if instrument in exposure then exposure[instrument] else FLAT }
  }

  datatype Controls = Controls(collarBps: U32, reference: int)

  datatype RiskState = RiskState(accounts: map<nat, Account>, instruments: map<nat, Controls>)
  {
    function Exposed(account: nat, instrument: nat): Exposure {
      if account in accounts then accounts[account].On(instrument) else FLAT
    }

    function Working(account: nat, instrument: nat, side: Side): nat { Exposed(account, instrument).Working(side) }

    function OpenOrders(account: nat): nat { if account in accounts then accounts[account].openOrders else 0 }

    function WithExposure(account: nat, instrument: nat, e: Exposure): RiskState
      requires account in accounts
    {
      var a := accounts[account];
      this.(accounts := accounts[account := a.(exposure := a.exposure[instrument := e])])
    }
  }

  const UNLIMITED := AccountLimits(U64_MAX, U64_MAX, 0xFFFF_FFFF, U64_MAX, 0, 1)

  const NO_CONTROLS := Controls(0, NO_PRICE)

  function Configured(r: RiskState, account: nat, limits: AccountLimits): RiskState {
    r.(accounts := r.accounts[account := if account in r.accounts then r.accounts[account].(limits := limits)
                                         else Account(limits, 0, map[], 0)])
  }

  /** The collar of an instrument set, and its reference price left alone. */
  function Supervised(r: RiskState, instrument: nat, collarBps: U32): RiskState {
    var c := if instrument in r.instruments then r.instruments[instrument] else NO_CONTROLS;
    r.(instruments := r.instruments[instrument := c.(collarBps := collarBps)])
  }

  // ----- what the engine reports

  function Committed(r: RiskState, o: Order): RiskState {
    var known := if o.account in r.accounts then r else Configured(r, o.account, UNLIMITED);
    var a := known.accounts[o.account];
    var e := a.On(o.instrument);
    known.(accounts := known.accounts[o.account :=
      a.(openOrders := a.openOrders + 1,
         exposure := a.exposure[o.instrument := e.WithWorking(o.side, e.Working(o.side) + o.remaining)])])
  }

  function Released(r: RiskState, account: nat, instrument: nat, side: Side, quantity: nat): RiskState {
    if account !in r.accounts || instrument !in r.accounts[account].exposure then r
    else r.WithExposure(account, instrument, r.accounts[account].exposure[instrument].Released(side, quantity))
  }

  /** One party to a trade. */
  function Traded(r: RiskState, account: nat, instrument: nat, side: Side, quantity: nat): RiskState {
    if account !in r.accounts then r
    else r.WithExposure(account, instrument, r.accounts[account].On(instrument).Traded(side, quantity))
  }

  function Filled(r: RiskState, f: Fill): RiskState {
    Traded(Traded(r, f.aggressorAccount, f.instrument, f.aggressorSide, f.quantity),
           f.restingAccount, f.instrument, f.aggressorSide.Opposite(), f.quantity)
  }

  function Closed(r: RiskState, account: nat): RiskState {
    if account in r.accounts && r.accounts[account].openOrders > 0
    then r.(accounts := r.accounts[account := r.accounts[account].(openOrders := r.accounts[account].openOrders - 1)])
    else r
  }

  function Referenced(r: RiskState, instrument: nat, price: int): RiskState {
    if price > 0 then
      var c := if instrument in r.instruments then r.instruments[instrument] else NO_CONTROLS;
      r.(instruments := r.instruments[instrument := c.(reference := price)])
    else r
  }

  // ----- the rate gate: a generic cell rate algorithm

  function Interval(limits: AccountLimits): nat
    requires limits.maxMessagesPerSecond > 0
  {
    1_000_000_000 / limits.maxMessagesPerSecond
  }

  function Burst(limits: AccountLimits): nat { if limits.messageBurst == 0 then 1 else limits.messageBurst }

  /** Is a message at `now` in time, given the theoretical arrival time? */
  predicate OnTime(limits: AccountLimits, arrival: int, now: int) {
    limits.maxMessagesPerSecond == 0 || now >= arrival - (Burst(limits) - 1) * Interval(limits)
  }

  function NextArrival(limits: AccountLimits, arrival: int, now: int): int {
    if limits.maxMessagesPerSecond == 0 || !OnTime(limits, arrival, now) then arrival
    else (if now > arrival then now else arrival) + Interval(limits)
  }

  // ----- the checks, in the widths they are made in


  predicate NotionalExceeds(price: U64, quantity: U64, limit: U64) {
    var notional := Wrapped(price * quantity);
    (quantity != 0 && notional / quantity != price) || notional > limit
  }

  predicate CollarRejects(deviation: nat, reference: nat, collar: U64)
    requires collar > 0
  {
    if deviation > U64_MAX / 10_000 then true
    else if reference > U64_MAX / collar then false
    else Wrapped(deviation * 10_000) > Wrapped(reference * collar)
  }

  lemma WrapsDown(n: nat)
    ensures Wrapped(n) <= n && (Wrapped(n) == n <==> n <= U64_MAX)
  {
  }

  lemma CollarDecides(deviation: nat, reference: nat, collar: U64)
    requires collar > 0
    ensures CollarRejects(deviation, reference, collar) <==>
            !(deviation <= U64_MAX / 10_000 && deviation * 10_000 <= reference * collar)
  {
    WrapsDown(deviation * 10_000);
    WrapsDown(reference * collar);
    QuotientAtLeast(U64_MAX, collar, reference);
    QuotientAtLeast(U64_MAX, 10_000, deviation);
  }

  /** Is there a reference price for the collar to compare a price with? */
  predicate Collared(r: RiskState, c: NewOrder) {
    && c.instrument in r.instruments && r.instruments[c.instrument].collarBps > 0
    && r.instruments[c.instrument].reference > 0 && c.kind.Limit? && c.price > 0
  }

  function Deviation(r: RiskState, c: NewOrder): nat
    requires Collared(r, c)
  {
    var reference := r.instruments[c.instrument].reference;
    if c.price > reference then c.price - reference else reference - c.price
  }

  /** Within the collar's fraction of the reference price, if there is one. */
  predicate InsideBand(r: RiskState, c: NewOrder) {
    Collared(r, c) ==>
      Deviation(r, c) * 10_000 <= r.instruments[c.instrument].reference * r.instruments[c.instrument].collarBps
  }

  /** So far from the reference that the collar does not compute the fraction. */
  predicate TooFar(r: RiskState, c: NewOrder) {
    Collared(r, c) && Deviation(r, c) > U64_MAX / 10_000
  }

  /** What the collar says, whatever the widths it is computed in. */
  function Collar(r: RiskState, c: NewOrder): RejectReason {
    if InsideBand(r, c) && !TooFar(r, c) then Accepted else PriceCollar
  }

  /** Would everything working, this order included, take the account past its cap?  As the program
      computes it: the working quantities wrap at 64 bits, and they, the two projections and the cap
      are read in two's complement. */
  predicate PositionExceeds(e: Exposure, side: Side, quantity: U64, cap: U64) {
    var buy := Wrapped(e.workingBuy + if side.Buy? then quantity else 0);
    var sell := Wrapped(e.workingSell + if side.Sell? then quantity else 0);
    AsSigned(e.net + AsSigned(buy)) > AsSigned(cap) || AsSigned(AsSigned(sell) - e.net) > AsSigned(cap)
  }

  /** The limits of a configured account, after the rate gate and the collar. */
  function Within(a: Account, c: NewOrder): RejectReason {
    if c.quantity > a.limits.maxOrderQuantity then RiskLimit
    else if c.kind.Limit? && c.price > 0 && NotionalExceeds(c.price, c.quantity, a.limits.maxOrderNotional)
    then RiskLimit
    else if a.openOrders >= a.limits.maxOpenOrders then RiskLimit
    else if a.limits.maxPosition != U64_MAX
    && PositionExceeds(a.On(c.instrument), c.side, c.quantity, a.limits.maxPosition)
    then RiskLimit
    else Accepted
  }

  /** The verdict on a new order, and the rate budget it used up. */
  function Check(r: RiskState, c: NewOrder, now: int): (RejectReason, RiskState) {
    if c.account !in r.accounts then (Collar(r, c), r)
    else
      var a := r.accounts[c.account];
      if !OnTime(a.limits, a.arrival, now) then (RateLimit, r)
      else
        var b := a.(arrival := NextArrival(a.limits, a.arrival, now));
        var collar := Collar(r, c);
        (if collar != Accepted then collar else Within(b, c), r.(accounts := r.accounts[c.account := b]))
  }

  class RiskEngine {
    var accounts: map<nat, Account>
    var instruments: map<nat, Controls>

    ghost function Now(): RiskState
      reads this
    {
      RiskState(accounts, instruments)
    }

    constructor ()
      ensures Now() == RiskState(map[], map[])
    {
      accounts := map[];
      instruments := map[];
    }

    method Configure(account: nat, limits: AccountLimits)
      modifies this
      ensures Now() == Configured(old(Now()), account, limits)
    {
      if account !in accounts {
        accounts := accounts[account := Account(UNLIMITED, 0, map[], 0)];
      }
      accounts := accounts[account := accounts[account].(limits := limits)];
    }

    method ConfigureInstrument(instrument: nat, collarBps: U32)
      modifies this
      ensures Now() == Supervised(old(Now()), instrument, collarBps)
    {
      var c := if instrument in instruments then instruments[instrument] else NO_CONTROLS;
      instruments := instruments[instrument := c.(collarBps := collarBps)];
    }

    method SetReferencePrice(instrument: nat, price: int)
      modifies this
      ensures Now() == Referenced(old(Now()), instrument, price)
    {
      if price > 0 {
        var c := NO_CONTROLS;
        if instrument in instruments {
          c := instruments[instrument];
        }
        instruments := instruments[instrument := c.(reference := price)];
      }
    }

    /** Spends one message of the account's budget, if it has one. */
    method ConsumeRateBudget(account: nat, now: int) returns (ok: bool)
      requires account in accounts
      modifies this
      ensures var a := old(accounts)[account];
              && ok == OnTime(a.limits, a.arrival, now)
              && accounts == old(accounts)[account := a.(arrival := NextArrival(a.limits, a.arrival, now))]
              && instruments == old(instruments)
    {
      var state := accounts[account];
      var rate := state.limits.maxMessagesPerSecond;
      if rate == 0 {
        assert accounts == accounts[account := state];
        return true;
      }
      var interval := 1_000_000_000 / rate;
      var burst := if state.limits.messageBurst == 0 then 1 else state.limits.messageBurst;
      var tolerance := (burst - 1) * interval;
      if now < state.arrival - tolerance {
        assert accounts == accounts[account := state];
        return false;
      }
      var later := if now > state.arrival then now else state.arrival;
      accounts := accounts[account := state.(arrival := later + interval)];
      return true;
    }

    method CheckCollar(c: NewOrder) returns (reject: RejectReason)
      ensures reject == if InsideBand(Now(), c) && !TooFar(Now(), c) then Accepted else PriceCollar
    {
      if c.instrument !in instruments || instruments[c.instrument].collarBps == 0 {
        return Accepted;
      }
      var reference := instruments[c.instrument].reference;
      if reference <= 0 || !c.kind.Limit? || c.price <= 0 {
        return Accepted;
      }
      var deviation := if c.price > reference then c.price - reference else reference - c.price;
      var collar := instruments[c.instrument].collarBps;
      CollarDecides(deviation, reference, collar);
      if deviation > U64_MAX / 10_000 {
        return PriceCollar;
      }
      if reference > U64_MAX / collar {
        return Accepted;
      }
      return if Wrapped(deviation * 10_000) > Wrapped(reference * collar) then PriceCollar else Accepted;
    }

    method CheckOrder(c: NewOrder, now: int) returns (reject: RejectReason)
      modifies this
      ensures (reject, Now()) == Check(old(Now()), c, now)
    {
      if c.account in accounts {
        var ok := ConsumeRateBudget(c.account, now);
        if !ok {
          assert accounts == old(accounts);
          return RateLimit;
        }
      }
      reject := CheckCollar(c);
      if reject != Accepted || c.account !in accounts {
        return;
      }
      var limits := accounts[c.account].limits;
      if c.quantity > limits.maxOrderQuantity {
        return RiskLimit;
      }
      if c.kind.Limit? && c.price > 0 {
        var notional := Wrapped(c.price * c.quantity);
        var overflowed := c.quantity != 0 && notional / c.quantity != c.price;
        if overflowed || notional > limits.maxOrderNotional {
          return RiskLimit;
        }
      }
      if accounts[c.account].openOrders >= limits.maxOpenOrders {
        return RiskLimit;
      }
      if limits.maxPosition != U64_MAX {
        if PositionExceeds(accounts[c.account].On(c.instrument), c.side, c.quantity, limits.maxPosition) {
          return RiskLimit;
        }
      }
    }

    method OnOrderRested(o: Order)
      modifies this
      ensures Now() == Committed(old(Now()), o)
    {
      if o.account !in accounts {
        accounts := accounts[o.account := Account(UNLIMITED, 0, map[], 0)];
      }
      var a := accounts[o.account];
      var e := a.On(o.instrument);
      var working := e.WithWorking(o.side, e.Working(o.side) + o.remaining);
      accounts := accounts[o.account :=
                           a.(openOrders := a.openOrders + 1, exposure := a.exposure[o.instrument := working])];
    }

    method OnWorkingReleased(account: nat, instrument: nat, side: Side, quantity: nat)
      modifies this
      ensures Now() == Released(old(Now()), account, instrument, side, quantity)
    {
      if account !in accounts {
        return;
      }
      var a := accounts[account];
      if instrument !in a.exposure {
        return;
      }
      accounts := accounts[account :=
                           a.(exposure := a.exposure[instrument := a.exposure[instrument].Released(side, quantity)])];
    }

    static method TradedExposure(e: Exposure, side: Side, quantity: nat) returns (r: Exposure)
      ensures r == e.Traded(side, quantity)
    {
      hide AsSigned, Wrapped;
      var q := AsSigned(Wrapped(quantity));
      SignedWrapped(e.net, quantity);
      if side.Buy? {
        r := e.(net := AsSigned(e.net + q), workingBuy := e.workingBuy - Min(e.workingBuy, quantity));
      } else {
        r := e.(net := AsSigned(e.net - q), workingSell := e.workingSell - Min(e.workingSell, quantity));
      }
    }

    method ApplyTrade(account: nat, instrument: nat, side: Side, quantity: nat)
      modifies this
      ensures Now() == Traded(old(Now()), account, instrument, side, quantity)
    {
      if account !in accounts {
        return;
      }
      var a := accounts[account];
      var e := TradedExposure(a.On(instrument), side, quantity);
      accounts := accounts[account := a.(exposure := a.exposure[instrument := e])];
    }

    method OnFill(f: Fill)
      modifies this
      ensures Now() == Filled(old(Now()), f)
    {
      ApplyTrade(f.aggressorAccount, f.instrument, f.aggressorSide, f.quantity);
      ApplyTrade(f.restingAccount, f.instrument, f.aggressorSide.Opposite(), f.quantity);
    }

    method OnOrderClosed(account: nat)
      modifies this
      ensures Now() == Closed(old(Now()), account)
    {
      if account in accounts && accounts[account].openOrders > 0 {
        var a := accounts[account];
        accounts := accounts[account := a.(openOrders := a.openOrders - 1)];
      }
    }
  }
}

/** How much an order will fill, found without matching it.  Self-trade
    prevention makes this differ from the quantity resting within reach. */
module FillPrediction {
  import opened Types
  import opened Matching
  import opened BookInvariant
  import opened Conservation

  /** What `left` of the incoming order will trade against a queue. */
  function Predict(inst: Instrument, q: seq<Order>, incoming: Order, left: nat): nat {
    if left == 0 || q == [] || !Crosses(incoming, q[0].price) then 0
    else if PreventionActive(inst.selfTradePolicy, incoming) && q[0].account == incoming.account then
      match inst.selfTradePolicy
      case CancelIncoming => 0
      case CancelBoth => 0
      case CancelResting => Predict(inst, q[1..], incoming, left)
      case DecrementBoth => Predict(inst, q[1..], incoming, left - Min(left, q[0].remaining))
    else
      var traded := Min(left, q[0].remaining);
      traded + Predict(inst, q[1..], incoming, left - traded)
  }

  /** The quantity resting within reach of the incoming order. */
  function Reachable(q: seq<Order>, incoming: Order): nat {
    if q == [] || !Crosses(incoming, q[0].price) then 0
    else q[0].remaining + Reachable(q[1..], incoming)
  }

  /** Sizes of the incoming order do not enter the prediction. */
  lemma {:induction false} PredictIgnoresSize(inst: Instrument, q: seq<Order>, a: Order, b: Order, left: nat)
    requires a == b.(remaining := a.remaining, quantity := a.quantity)
    ensures Predict(inst, q, a, left) == Predict(inst, q, b, left)
  {
    if q != [] {
      PredictIgnoresSize(inst, q[1..], a, b, left);
      PredictIgnoresSize(inst, q[1..], a, b, left - Min(left, q[0].remaining));
    }
  }

  function Expected(inst: Instrument, s: MatchState): nat {
    FillTotal(s.fills) + Predict(inst, s.queue, s.incoming, s.incoming.remaining)
  }

  lemma TradeStepExpected(inst: Instrument, s: MatchState)
    requires !Finished(s) && Live(s.queue)
    requires !(PreventionActive(inst.selfTradePolicy, s.incoming) && s.queue[0].account == s.incoming.account)
    ensures Expected(inst, TradeStep(inst, s)) == Expected(inst, s)
  {
    var t := TradeStep(inst, s);
    FillTotalAppend(s.fills, t.fills[|s.fills|]);
    PredictIgnoresSize(inst, s.queue[1..], t.incoming, s.incoming, t.incoming.remaining);
    if t.incoming.remaining > 0 {
      assert t.queue == s.queue[1..];
    }
  }

  lemma SelfTradeStepExpected(inst: Instrument, s: MatchState)
    requires !Finished(s) && Live(s.queue)
    requires PreventionActive(inst.selfTradePolicy, s.incoming) && s.queue[0].account == s.incoming.account
    ensures Expected(inst, SelfTradeStep(inst, s)) == Expected(inst, s)
  {
    var t := SelfTradeStep(inst, s);
    PredictIgnoresSize(inst, s.queue[1..], t.incoming, s.incoming, t.incoming.remaining);
    if t.incoming.remaining > 0 {
      assert t.queue == s.queue[1..];
    }
  }

  /** The prediction is exact under every policy. */
  lemma {:induction false} PredictExact(inst: Instrument, s: MatchState)
    requires Live(s.queue)
    ensures FillTotal(Run(inst, s).fills) == Expected(inst, s)
    decreases Measure(s)
  {
    if !Finished(s) {
      StepResidue(inst, s);
      if PreventionActive(inst.selfTradePolicy, s.incoming) && s.queue[0].account == s.incoming.account {
        SelfTradeStepExpected(inst, s);
      } else {
        TradeStepExpected(inst, s);
      }
      PredictExact(inst, Step(inst, s));
    }
  }

  /** With nothing between the aggressor and the book, resting size is fill size. */
  lemma {:induction false} PredictUnprevented(inst: Instrument, q: seq<Order>, incoming: Order, left: nat)
    requires !PreventionActive(inst.selfTradePolicy, incoming)
    ensures Predict(inst, q, incoming, left) == Min(left, Reachable(q, incoming))
  {
    if left > 0 && q != [] && Crosses(incoming, q[0].price) {
      PredictUnprevented(inst, q[1..], incoming, left - Min(left, q[0].remaining));
    }
  }

  lemma PredictStops(inst: Instrument, q: seq<Order>, incoming: Order, left: nat)
    requires q == [] || !Crosses(incoming, q[0].price)
    ensures Predict(inst, q, incoming, left) == 0
  {
  }

  lemma PredictSpent(inst: Instrument, q: seq<Order>, incoming: Order)
    ensures Predict(inst, q, incoming, 0) == 0
  {
  }

  /** One order of the walk, when prevention is active. */
  lemma PredictNext(inst: Instrument, resting: Order, rest: seq<Order>, incoming: Order, left: nat)
    requires PreventionActive(inst.selfTradePolicy, incoming) && Crosses(incoming, resting.price)
    ensures Predict(inst, [resting] + rest, incoming, left) ==
            if left == 0 then 0
            else if resting.account == incoming.account then
              match inst.selfTradePolicy
              case CancelIncoming => 0
              case CancelBoth => 0
              case CancelResting => Predict(inst, rest, incoming, left)
              case DecrementBoth => Predict(inst, rest, incoming, left - Min(left, resting.remaining))
            else
              Min(left, resting.remaining) + Predict(inst, rest, incoming, left - Min(left, resting.remaining))
  {
    assert ([resting] + rest)[1..] == rest;
  }

  lemma {:induction false} PredictBound(inst: Instrument, q: seq<Order>, incoming: Order, left: nat)
    ensures Predict(inst, q, incoming, left) <= left
  {
    if q != [] {
      PredictBound(inst, q[1..], incoming, left);
      PredictBound(inst, q[1..], incoming, left - Min(left, q[0].remaining));
    }
  }

  /** A whole price level is within reach or none of it is. */
  lemma {:induction false} ReachableLevel(os: seq<Order>, rest: seq<Order>, incoming: Order)
    requires forall i :: 0 <= i < |os| ==> Crosses(incoming, os[i].price)
    ensures Reachable(os + rest, incoming) == Total(os) + Reachable(rest, incoming)
  {
    if os == [] {
      assert os + rest == rest;
    } else {
      ReachableLevel(os[1..], rest, incoming);
      assert (os + rest)[1..] == os[1..] + rest;
    }
  }

  /** Fill-or-kill: an accepted order fills completely with nothing cancelled
      on the way, and a refused one leaves the book as it was. */
  lemma FillOrKillIsAllOrNothing(b: Book, o: Order)
    requires BookOk(b) && o.tif.FillOrKill? && o.remaining <= o.quantity
    ensures var e := Insert(b, o);
            if e.result.reject == Accepted then
              && e.result.filled == FillTotal(e.fills) == o.remaining
              && e.result.stpCancelled == 0
              && !e.result.rested
            else
              e.book == b && e.fills == [] && e.withdrawals == []
  {
    RunConserves(b.instrument, Start(b, o));
  }

  lemma KilledExactly(b: Book, o: Order)
    requires BookOk(b) && o.tif.FillOrKill? && o.remaining <= o.quantity
    ensures Killed(b, o) <==> Predict(b.instrument, b.Queue(o.side.Opposite()), o, o.remaining) < o.remaining
  {
    PredictExact(b.instrument, Start(b, o));
  }
}

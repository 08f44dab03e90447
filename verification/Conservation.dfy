/** Nothing is created or lost by matching: whatever an order asked for is
    traded, withdrawn by self-trade prevention, or left over, and the resting
    side loses exactly what was traded and withdrawn. */
module Conservation {
  import opened Types
  import opened Matching
  import opened BookInvariant

  lemma FillTotalAppend(fills: seq<Fill>, f: Fill)
    ensures FillTotal(fills + [f]) == FillTotal(fills) + f.quantity
  {
    assert (fills + [f])[..|fills|] == fills;
  }

  lemma WithdrawnTotalAppend(ws: seq<Withdrawal>, w: Withdrawal)
    ensures WithdrawnTotal(ws + [w]) == WithdrawnTotal(ws) + w.quantity
  {
    assert (ws + [w])[..|ws|] == ws;
  }

  /** What a run of matching may not change. */
  function AggressorAccount(s: MatchState): nat {
    s.incoming.remaining + s.stpCancelled + FillTotal(s.fills)
  }

  function RestingAccount(s: MatchState): nat {
    Total(s.queue) + FillTotal(s.fills) + WithdrawnTotal(s.withdrawals)
  }

  ghost predicate Conserved(s: MatchState, t: MatchState) {
    && AggressorAccount(t) == AggressorAccount(s)
    && RestingAccount(t) == RestingAccount(s)
    && t.nextTradeId - |t.fills| == s.nextTradeId - |s.fills|
    && t.incoming == s.incoming.(remaining := t.incoming.remaining, quantity := t.incoming.quantity)
    && t.incoming.remaining <= t.incoming.quantity
    && (t.incoming.remaining > 0 ==>
          t.incoming.Filled() - FillTotal(t.fills) == s.incoming.Filled() - FillTotal(s.fills))
  }

  lemma TotalOfRest(front: seq<Order>, q: seq<Order>)
    requires |front| <= 1 && q != []
    ensures Total(front + q[1..]) == Total(front) + Total(q) - q[0].remaining
  {
    if front == [] {
      assert front + q[1..] == q[1..];
    } else {
      assert (front + q[1..])[1..] == q[1..];
    }
  }

  lemma TradeStepConserves(inst: Instrument, s: MatchState)
    requires !Finished(s) && Live(s.queue) && s.incoming.remaining <= s.incoming.quantity
    ensures Conserved(s, TradeStep(inst, s))
  {
    var resting := s.queue[0];
    var quantity := Min(s.incoming.remaining, resting.remaining);
    FillTotalAppend(s.fills, FillOf(inst, s.incoming, resting, quantity, s.nextTradeId));
    TotalOfRest([], s.queue);
    TotalOfRest([resting.(remaining := resting.remaining - quantity)], s.queue);
  }

  lemma SelfTradeStepConserves(inst: Instrument, s: MatchState)
    requires !Finished(s) && Live(s.queue) && s.incoming.remaining <= s.incoming.quantity
    requires inst.selfTradePolicy != Allow
    ensures Conserved(s, SelfTradeStep(inst, s))
  {
    var resting := s.queue[0];
    match inst.selfTradePolicy
    case CancelIncoming =>
    case CancelResting =>
      WithdrawnTotalAppend(s.withdrawals, WithdrawalOf(resting, inst.id, resting.remaining, true));
    case CancelBoth =>
      WithdrawnTotalAppend(s.withdrawals, WithdrawalOf(resting, inst.id, resting.remaining, true));
    case DecrementBoth =>
      var overlap := Min(s.incoming.remaining, resting.remaining);
      WithdrawnTotalAppend(s.withdrawals, WithdrawalOf(resting, inst.id, overlap, resting.remaining == overlap));
      TotalOfRest([], s.queue);
      TotalOfRest([Decremented(resting, overlap)], s.queue);
  }

  lemma StepConserves(inst: Instrument, s: MatchState)
    requires !Finished(s) && Live(s.queue) && s.incoming.remaining <= s.incoming.quantity
    ensures Conserved(s, Step(inst, s))
  {
    if PreventionActive(inst.selfTradePolicy, s.incoming) && s.queue[0].account == s.incoming.account {
      SelfTradeStepConserves(inst, s);
    } else {
      TradeStepConserves(inst, s);
    }
  }

  lemma StartConserved(s: MatchState)
    requires s.incoming.remaining <= s.incoming.quantity
    ensures Conserved(s, s)
  {
  }

  lemma ConservedSizes(s: MatchState, t: MatchState)
    requires Conserved(s, t)
    ensures t.incoming.remaining <= t.incoming.quantity
    ensures t.incoming == s.incoming.(remaining := t.incoming.remaining, quantity := t.incoming.quantity)
    ensures s.fills == [] && s.stpCancelled == 0 ==>
              s.incoming.remaining == t.incoming.remaining + t.stpCancelled + FillTotal(t.fills)
  {
  }

  lemma ConservedTransitive(s: MatchState, t: MatchState, u: MatchState)
    requires Conserved(s, t) && Conserved(t, u)
    requires u.incoming.remaining > 0 ==> t.incoming.remaining > 0
    ensures Conserved(s, u)
  {
  }

  lemma RunDone(inst: Instrument, s: MatchState)
    ensures Finished(s) ==> Run(inst, s) == s
  {
  }

  /** One step on from where a run stands: the same end, nearer, and nothing lost. */
  lemma StepsOn(inst: Instrument, s0: MatchState, s: MatchState)
    requires !Finished(s) && Live(s.queue) && Conserved(s0, s)
    ensures var t := Step(inst, s);
            && Run(inst, t) == Run(inst, s) && Measure(t) < Measure(s) && Conserved(s0, t)
            && t.incoming.remaining <= t.incoming.quantity
            && t.incoming == s.incoming.(remaining := t.incoming.remaining, quantity := t.incoming.quantity)
  {
    hide Conserved, Run, Step;
    ConservedSizes(s0, s);
    StepShrinks(inst, s);
    StepConserves(inst, s);
    ConservedTransitive(s0, s, Step(inst, s));
    ConservedSizes(s, Step(inst, s));
  }

  lemma {:induction false} RunConserves(inst: Instrument, s: MatchState)
    requires Live(s.queue) && s.incoming.remaining <= s.incoming.quantity
    ensures Conserved(s, Run(inst, s))
    decreases Measure(s)
  {
    hide Conserved, Step;
    if !Finished(s) {
      var t := Step(inst, s);
      StepConserves(inst, s);
      StepResidue(inst, s);
      StepShrinks(inst, s);
      ConservedSizes(s, t);
      RunConserves(inst, t);
      ConservedTransitive(s, t, Run(inst, t));
    } else {
      StartConserved(s);
    }
  }
}

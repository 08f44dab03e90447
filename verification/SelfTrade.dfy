/** Self-trade prevention: which policy gives up what, over a whole match and a whole command. */
module SelfTrade {
  import opened Types
  import opened Matching
  import opened BookInvariant
  import opened BookSteps
  import opened Conservation
  import opened Priority

  /** Does the venue keep this order from meeting its own account? */
  predicate Guarded(inst: Instrument, o: Order) {
    inst.selfTradePolicy != Allow && o.account != 0
  }

  /** What prevention took from the two sides between `s` and `r`: nothing unless the policy says so,
      and then from the side that is to give way. */
  ghost predicate Yields(policy: SelfTradePolicy, s: MatchState, r: MatchState) {
    match policy
    case Allow => r.withdrawals == s.withdrawals && r.stpCancelled == s.stpCancelled
    case CancelIncoming =>
      r.withdrawals == s.withdrawals && (r.stpCancelled != s.stpCancelled ==> r.incoming.remaining == 0)
    case CancelResting => r.stpCancelled == s.stpCancelled
    case CancelBoth =>
      if r.stpCancelled == s.stpCancelled then r.withdrawals == s.withdrawals
      else |r.withdrawals| == |s.withdrawals| + 1 && r.incoming.remaining == 0
    case DecrementBoth =>
      r.stpCancelled - s.stpCancelled == WithdrawnTotal(r.withdrawals) - WithdrawnTotal(s.withdrawals)
  }

  /** A withdrawal reports quantity of an own order on the other side; only a decrement leaves some. */
  predicate FromOwn(inst: Instrument, incoming: Order, w: Withdrawal) {
    && w.account == incoming.account && w.instrument == inst.id && w.side == incoming.side.Opposite()
    && w.reason == SelfTrade && w.quantity > 0
    && (w.fullyRemoved || inst.selfTradePolicy == DecrementBoth)
  }

  /** A trade is between two accounts where that is guarded, and is numbered and timed by the venue. */
  predicate BetweenTwo(inst: Instrument, incoming: Order, f: Fill, number: nat) {
    && (Guarded(inst, incoming) ==> f.restingAccount != f.aggressorAccount)
    && f.id == number && f.timestamp == incoming.acceptedAt && f.instrument == inst.id
  }

  ghost predicate Reported(inst: Instrument, s: MatchState, r: MatchState) {
    && s.withdrawals <= r.withdrawals && s.fills <= r.fills
    && (forall k :: |s.withdrawals| <= k < |r.withdrawals| ==> FromOwn(inst, s.incoming, r.withdrawals[k]))
    && (forall k :: |s.fills| <= k < |r.fills| ==>
          BetweenTwo(inst, s.incoming, r.fills[k], s.nextTradeId + k - |s.fills|))
    && r.nextTradeId == s.nextTradeId + |r.fills| - |s.fills|
  }

  ghost predicate Facing(q: seq<Order>, incoming: Order) {
    forall i :: 0 <= i < |q| ==> q[i].side == incoming.side.Opposite()
  }

  lemma StepYields(inst: Instrument, s: MatchState)
    requires !Finished(s) && Live(s.queue)
    ensures Yields(inst.selfTradePolicy, s, Step(inst, s))
    ensures inst.selfTradePolicy in {CancelIncoming, CancelBoth} && Step(inst, s).stpCancelled != s.stpCancelled ==>
              Step(inst, s).incoming.remaining == 0
  {
    if PreventionActive(inst.selfTradePolicy, s.incoming) && s.queue[0].account == s.incoming.account
       && inst.selfTradePolicy == DecrementBoth {
      var resting := s.queue[0];
      var overlap := Min(s.incoming.remaining, resting.remaining);
      WithdrawnTotalAppend(s.withdrawals, WithdrawalOf(resting, inst.id, overlap, resting.remaining == overlap));
    }
  }

  lemma StepReports(inst: Instrument, s: MatchState)
    requires !Finished(s) && Live(s.queue) && Facing(s.queue, s.incoming)
    ensures var t := Step(inst, s);
            Reported(inst, s, t) && Facing(t.queue, t.incoming) && SameTerms(t.incoming, s.incoming)
  {
    var t := Step(inst, s);
    forall i | 0 <= i < |t.queue| ensures t.queue[i].side == s.incoming.side.Opposite() {
      var k := |s.queue| - |t.queue|;
      assert t.queue[i] == s.queue[i + k] || (i == 0 && t.queue[0].side == s.queue[0].side);
    }
  }

  lemma ReportedOn(inst: Instrument, s: MatchState, t: MatchState, r: MatchState)
    requires Reported(inst, s, t) && Reported(inst, t, r) && SameTerms(t.incoming, s.incoming)
    ensures Reported(inst, s, r)
  {
    forall k | |s.withdrawals| <= k < |r.withdrawals| ensures FromOwn(inst, s.incoming, r.withdrawals[k]) {
      if k < |t.withdrawals| {
        assert r.withdrawals[k] == t.withdrawals[k];
      } else {
        assert FromOwn(inst, t.incoming, r.withdrawals[k]);
      }
    }
    forall k | |s.fills| <= k < |r.fills|
      ensures BetweenTwo(inst, s.incoming, r.fills[k], s.nextTradeId + k - |s.fills|)
    {
      if k < |t.fills| {
        assert r.fills[k] == t.fills[k];
      } else {
        assert BetweenTwo(inst, t.incoming, r.fills[k], t.nextTradeId + k - |t.fills|);
      }
    }
  }

  /** Over a whole match: only the side the policy names gives way, every withdrawal is of an own
      order, no guarded trade is with oneself, and trades are numbered one after the other. */
  lemma {:induction false} RunByPolicy(inst: Instrument, s: MatchState)
    requires Live(s.queue) && Facing(s.queue, s.incoming)
    ensures Yields(inst.selfTradePolicy, s, Run(inst, s)) && Reported(inst, s, Run(inst, s))
    decreases Measure(s)
  {
    hide Step, Reported;
    NothingReported(inst, s);
    if !Finished(s) {
      var t := Step(inst, s);
      StepYields(inst, s);
      StepReports(inst, s);
      StepResidue(inst, s);
      StepShrinks(inst, s);
      RunByPolicy(inst, t);
      ReportedOn(inst, s, t, Run(inst, t));
    }
  }

  lemma NothingReported(inst: Instrument, s: MatchState)
    ensures Reported(inst, s, s)
  {
  }

  /** An own order met by one that is to give way keeps its place and all its quantity. */
  lemma {:induction false} OwnOrdersStand(inst: Instrument, s: MatchState, x: Order)
    requires Live(s.queue) && inst.selfTradePolicy == CancelIncoming && s.incoming.account != 0
    requires x in s.queue && x.account == s.incoming.account
    ensures x in Run(inst, s).queue
    decreases Measure(s)
  {
    hide Live;
    if !Finished(s) {
      var t := Step(inst, s);
      StepResidue(inst, s);
      StepShrinks(inst, s);
      var i :| 0 <= i < |s.queue| && s.queue[i] == x;
      if s.queue[0].account != s.incoming.account {
        assert i > 0 && x == s.queue[1..][i - 1];
        assert x in t.queue;
      }
      OwnOrdersStand(inst, t, x);
    }
  }

  /** The same of a command: what the policy of the instrument makes of an order that meets orders of
      its own account. */
  lemma InsertByPolicy(b: Book, o: Order)
    requires BookOk(b) && o.remaining <= o.quantity
    ensures var e, inst := Insert(b, o), b.instrument;
            && (forall k :: 0 <= k < |e.withdrawals| ==> FromOwn(inst, o, e.withdrawals[k]))
            && (forall k :: 0 <= k < |e.fills| ==> BetweenTwo(inst, o, e.fills[k], b.nextTradeId + k))
            && e.book.nextTradeId == b.nextTradeId + |e.fills|
            && (inst.selfTradePolicy in {Allow, CancelIncoming} ==> e.withdrawals == [])
            && (inst.selfTradePolicy in {Allow, CancelResting} ==> e.result.stpCancelled == 0)
            && (inst.selfTradePolicy == CancelBoth ==>
                  |e.withdrawals| == if e.result.stpCancelled > 0 then 1 else 0)
            && (inst.selfTradePolicy == DecrementBoth ==> e.result.stpCancelled == WithdrawnTotal(e.withdrawals))
            && (inst.selfTradePolicy in {CancelIncoming, CancelBoth} && e.result.stpCancelled > 0 ==> !e.result.rested)
  {
    hide BookOk, Run, Admission, Place;
    BookWellFormed(b);
    var side := o.side.Opposite();
    QueueLive(b, side);
    OthersFace(b, o);
    RunByPolicy(b.instrument, Start(b, o));
  }

  lemma OthersFace(b: Book, o: Order)
    requires BookOk(b)
    ensures Facing(b.Queue(o.side.Opposite()), o)
  {
    hide NotCrossed, Disjoint;
    BookOkBySide(b, o.side.Opposite());
    forall i | 0 <= i < |b.Queue(o.side.Opposite())| ensures b.Queue(o.side.Opposite())[i].side == o.side.Opposite() {
      assert Resting(b.Queue(o.side.Opposite())[i], o.side.Opposite(), b.instrument);
    }
  }

  /** Under the default policy an order that would meet its own account leaves everything of that
      account where it was. */
  lemma OwnQueueKept(b: Book, o: Order, x: Order)
    requires BookOk(b) && o.remaining <= o.quantity && b.instrument.selfTradePolicy == CancelIncoming && o.account != 0
    requires x in b.Queue(o.side.Opposite()) && x.account == o.account
    ensures x in Insert(b, o).book.Queue(o.side.Opposite())
  {
    hide BookOk, Run, Admission, Place;
    BookWellFormed(b);
    QueueLive(b, o.side.Opposite());
    MatchedIncoming(b, o);
    OwnOrdersStand(b.instrument, Start(b, o), x);
  }
}

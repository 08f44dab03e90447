/** The trading venue: an engine with a journal and risk, and accounts configured on first sight. */
module Trading {
  import opened Types
  import opened OrderBooks
  import opened JournalRecord
  import opened JournalReader
  import opened Venue
  import opened Risk
  import opened RiskRuns
  import opened Engine

  /** A desk's step is the engine's step and its risk step, once the account is known. */
  lemma ActSteps(d: Desk, setup: Setup, a: Attempt)
    requires Defined(d.run.state) && Sane(a.body)
    ensures var r, d' := Onboarded(d.risk, a.body, setup.limits), Act(d, setup, a);
            && d'.risk == RiskStep(true, r, d.run, a)
            && (a.body.NewOrderEntered? ==>
                  d'.run == Stepped(true, d.run,
                                    a.(admitted := a.admitted && Check(r, a.body.order, a.now).0 == Accepted)))
            && (!a.body.NewOrderEntered? ==> d'.run == Stepped(true, d.run, a.(admitted := true)))
  {
    hide Passes, Perform, RiskAfter, FillsOf, Check, Onboarded;
  }

  /** A client with no limits yet is given the configured ones. */
  method Onboard(engine: MatchingEngine, risk: RiskEngine, b: Body, limits: AccountLimits)
    requires engine.Valid() && engine.risk == risk && engine.journal != null
    modifies risk
    ensures engine.Valid() && engine.Now() == old(engine.Now()) && engine.Repr() == old(engine.Repr())
    ensures engine.sequence == old(engine.sequence)
    ensures risk.Now() == Onboarded(old(risk.Now()), b, limits)
  {
    hide OrderBook.Repr, OrderBook.Valid, Orderly, Crc32c.IsTable, JournalWriter.Valid;
    if b.NewOrderEntered? && b.order.account !in risk.accounts {
      risk.Configure(b.order.account, limits);
    }
  }

  /** One message from a client, or one instrument listed. */
  method Handle(engine: MatchingEngine, risk: RiskEngine, setup: Setup, a: Attempt, hash: nat -> nat,
                capacity: nat,
                ghost d: Desk)
    requires engine.Valid() && engine.risk == risk && engine.journal != null
    requires IsU64(engine.sequence + 1) && HasRoom(engine.state, a.body)
    requires Defined(engine.state) && Sane(a.body) && d.run == engine.Now() && d.risk == risk.Now()
    modifies engine.Repr()
    ensures engine.Valid() && fresh(engine.Repr() - old(engine.Repr()))
    ensures engine.Now() == Act(d, setup, a).run && risk.Now() == Act(d, setup, a).risk
  {
    hide MatchingEngine.Valid, OrderBook.Repr, OrderBook.Valid, Stepped, RiskStep, Act, Check, Onboarded, Defined,
         CancelAnswer, ReplaceAnswer, SubmitAnswer;
    ActSteps(d, setup, a);
    Onboard(engine, risk, a.body, setup.limits);
    match a.body {
      case InstrumentDefined(i) =>
        var ok := engine.AddInstrument(i, a.now, hash, capacity, a.stored);
        ListingIsFree(Onboarded(d.risk, a.body, setup.limits), d.run, a);
      case NewOrderEntered(o) =>
        var outcome, fills := engine.Submit(o, a.now, !a.admitted, a.stored);
      case OrderCancelled(c) =>
        var outcome := engine.Cancel(c, a.now, a.stored);
        OnlyOrdersAreAsked(Onboarded(d.risk, a.body, setup.limits), d.run, a);
      case OrderReplaced(c) =>
        var outcome, fills := engine.Replace(c, a.now, a.stored);
        OnlyOrdersAreAsked(Onboarded(d.risk, a.body, setup.limits), d.run, a);
    }
  }

  lemma ListingIsFree(r: RiskState, run: Run, a: Attempt)
    requires Defined(run.state) && Sane(a.body) && a.body.InstrumentDefined?
    ensures RiskStep(true, r, run, a) == r
  {
    hide Passes;
  }

  lemma OnlyOrdersAreAsked(r: RiskState, run: Run, a: Attempt)
    requires Defined(run.state) && Sane(a.body) && !a.body.NewOrderEntered?
    ensures RiskStep(true, r, run, a) == RiskStep(true, r, run, a.(admitted := true))
  {
    hide Passes, RiskAfter;
  }

  /** At every moment the next order finds a handle left for it. */
  predicate DeskFits(setup: Setup, attempts: seq<Attempt>)
    requires AllSane(attempts)
  {
    forall i :: 0 <= i < |attempts| ==> HasRoom(Actual(setup, attempts[..i]).run.state, attempts[i].body)
  }

  /** A whole session: the engine and its ledger go exactly through the states of the desk, so
      what holds of every desk holds of them. */
  method Trade(engine: MatchingEngine, risk: RiskEngine, setup: Setup, attempts: seq<Attempt>,
               hash: nat -> nat, capacity: nat)
    requires engine.Valid() && engine.risk == risk && engine.journal != null
    requires engine.Now() == START && risk.Now() == Opening(setup).risk
    requires AllSane(attempts) && |attempts| < TWO64 && DeskFits(setup, attempts)
    modifies engine.Repr()
    ensures engine.Valid()
    ensures var d := Actual(setup, attempts); engine.Now() == d.run && risk.Now() == d.risk
  {
    hide MatchingEngine.Valid, OrderBook.Repr, OrderBook.Valid, Act, Defined, Consecutive, Replayable, Replay;
    assert attempts[..0] == [];
    for i := 0 to |attempts|
      invariant engine.Valid() && fresh(engine.Repr() - old(engine.Repr()))
      invariant AllSane(attempts[..i])
      invariant engine.Now() == Actual(setup, attempts[..i]).run && risk.Now() == Actual(setup, attempts[..i]).risk
    {
      ActualNext(setup, attempts, i);
      DeskReplays(setup, attempts[..i]);
      engine.Facts();
      Handle(engine, risk, setup, attempts[i], hash, capacity, Actual(setup, attempts[..i]));
    }
    assert attempts[..|attempts|] == attempts;
  }

  lemma ActualNext(setup: Setup, attempts: seq<Attempt>, i: nat)
    requires AllSane(attempts) && i < |attempts|
    ensures AllSane(attempts[..i]) && AllSane(attempts[..i + 1])
    ensures Actual(setup, attempts[..i + 1]) == Act(Actual(setup, attempts[..i]), setup, attempts[i])
  {
    hide Act;
    assert attempts[..i + 1][..i] == attempts[..i];
  }

  /** The commands as the venue takes them, with risk's say on each. */
  function Decided(setup: Setup, attempts: seq<Attempt>): (vs: seq<Attempt>)
    requires AllSane(attempts)
    ensures |vs| == |attempts| && AllSane(vs)
  {
    if attempts == [] then []
    else
      var before, a := attempts[..|attempts| - 1], attempts[|attempts| - 1];
      var risk := Onboarded(Actual(setup, before).risk, a.body, setup.limits);
      Decided(setup, before) + [a.(admitted := a.admitted && Verdict(risk, a.body, a.now).0)]
  }

  /** A desk's run is a run of the venue on the commands with risk's say: what holds of every
      run of the venue holds of every desk. */
  lemma {:induction false} DeskIsLive(setup: Setup, attempts: seq<Attempt>)
    requires AllSane(attempts)
    ensures LiveAll(Decided(setup, attempts)) == Actual(setup, attempts).run
    ensures forall i :: 0 <= i < |attempts| ==>
              Decided(setup, attempts)[i] == attempts[i].(admitted := Decided(setup, attempts)[i].admitted)
  {
    hide Act, Live, Check;
    if attempts != [] {
      var before, a := attempts[..|attempts| - 1], attempts[|attempts| - 1];
      DeskIsLive(setup, before);
      var vs := Decided(setup, attempts);
      var d, v := Actual(setup, before), vs[|vs| - 1];
      assert vs[..|vs| - 1] == Decided(setup, before);
      ActSteps(d, setup, a);
      if !a.body.NewOrderEntered? {
        OnlyOrdersAreAdmitted(d.run, v);
      }
    }
  }

  lemma OnlyOrdersAreAdmitted(r: Run, a: Attempt)
    requires Defined(r.state) && Sane(a.body) && !a.body.NewOrderEntered?
    ensures Live(r, a) == Live(r, a.(admitted := true))
  {
    hide Perform, Passes;
  }

  /** The desk's journal is numbered without a gap and replays to the desk's books. */
  lemma DeskReplays(setup: Setup, attempts: seq<Attempt>)
    requires AllSane(attempts)
    ensures var r := Actual(setup, attempts).run;
            && Consecutive(r.journal, 1) && |r.journal| <= r.state.sequence <= |attempts|
            && (r.healthy ==> |r.journal| == r.state.sequence)
            && Replayable(r.journal) && Replay(r.journal) == r.state.(sequence := |r.journal|)
  {
    hide LiveAll, Actual, Replay, Replayable, Consecutive;
    DeskIsLive(setup, attempts);
    GapFree(Decided(setup, attempts));
    ReplayReproduces(Decided(setup, attempts));
  }
}

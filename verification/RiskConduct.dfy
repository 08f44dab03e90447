/** What risk remembers over whole runs beside the ledger: the price a collar measures from, and the
    limits and the rate budget of each account. */
module RiskConduct {
  import opened Types
  import opened Matching
  import opened BookInvariant
  import opened BookSteps
  import Priority
  import SelfTrade
  import opened JournalRecord
  import opened Venue
  import opened Amendments
  import opened Risk
  import opened RiskChecks
  import opened RiskSettle
  import opened RiskLedger
  import opened RiskPositions
  import opened RiskRuns

  // ----- one report at a time

  /** The accounts of `r` have the same limits and rate budget in `s`. */
  ghost predicate SameTerms(r: RiskState, s: RiskState) {
    && r.accounts.Keys <= s.accounts.Keys
    && forall a :: a in r.accounts ==>
         s.accounts[a].limits == r.accounts[a].limits && s.accounts[a].arrival == r.accounts[a].arrival
  }

  lemma SameTermsAgain(r: RiskState, s: RiskState, t: RiskState)
    requires SameTerms(r, s) && SameTerms(s, t)
    ensures SameTerms(r, t)
  {
  }

  lemma TradedTerms(r: RiskState, account: nat, instrument: nat, side: Side, quantity: nat)
    ensures var s := Traded(r, account, instrument, side, quantity); SameTerms(r, s) && s.instruments == r.instruments
  {
  }

  lemma ReleasedTerms(r: RiskState, account: nat, instrument: nat, side: Side, quantity: nat)
    ensures var s := Released(r, account, instrument, side, quantity); SameTerms(r, s) && s.instruments == r.instruments
  {
  }

  lemma ClosedTerms(r: RiskState, account: nat)
    ensures var s := Closed(r, account); SameTerms(r, s) && s.instruments == r.instruments
  {
  }

  lemma CommittedTerms(r: RiskState, o: Order)
    ensures var s := Committed(r, o); SameTerms(r, s) && s.instruments == r.instruments
  {
  }

  lemma {:induction false} FillsTerms(r: RiskState, fills: seq<Fill>)
    ensures var s := SettleFills(r, fills); SameTerms(r, s) && s.instruments == r.instruments
  {
    hide Traded, Closed, SameTerms;
    SameTermsNow(r);
    if fills != [] {
      var n, f := |fills| - 1, fills[|fills| - 1];
      FillsTerms(r, fills[..n]);
      var p := SettleFills(r, fills[..n]);
      var q := Traded(p, f.aggressorAccount, f.instrument, f.aggressorSide, f.quantity);
      TradedTerms(p, f.aggressorAccount, f.instrument, f.aggressorSide, f.quantity);
      TradedTerms(q, f.restingAccount, f.instrument, f.aggressorSide.Opposite(), f.quantity);
      SameTermsAgain(r, p, q);
      SameTermsAgain(r, q, Filled(p, f));
      ClosedTerms(Filled(p, f), f.restingAccount);
      SameTermsAgain(r, Filled(p, f), Closed(Filled(p, f), f.restingAccount));
    }
  }

  lemma SameTermsNow(r: RiskState)
    ensures SameTerms(r, r)
  {
  }

  lemma {:induction false} WithdrawalsTerms(r: RiskState, ws: seq<Withdrawal>)
    ensures var s := SettleWithdrawals(r, ws); SameTerms(r, s) && s.instruments == r.instruments
  {
    hide Released, Closed, SameTerms;
    SameTermsNow(r);
    if ws != [] {
      var n, w := |ws| - 1, ws[|ws| - 1];
      WithdrawalsTerms(r, ws[..n]);
      var p := SettleWithdrawals(r, ws[..n]);
      var q := Released(p, w.account, w.instrument, w.side, w.quantity);
      ReleasedTerms(p, w.account, w.instrument, w.side, w.quantity);
      SameTermsAgain(r, p, q);
      ClosedTerms(q, w.account);
      SameTermsAgain(r, q, Closed(q, w.account));
    }
  }

  // ----- the price a collar measures from

  function Supervision(r: RiskState, i: nat): Controls {
    if i in r.instruments then r.instruments[i] else NO_CONTROLS
  }

  /** Settling a command moves the reference of its instrument to the price of its last trade. */
  lemma SettledSupervision(r: RiskState, k: nat, fills: seq<Fill>, ws: seq<Withdrawal>, i: nat)
    requires fills != [] ==> fills[|fills| - 1].price > 0
    ensures var s := Settled(r, k, fills, ws);
            && SameTerms(r, s)
            && Supervision(s, i) == if i == k && fills != []
                                    then Supervision(r, i).(reference := fills[|fills| - 1].price)
                                    else Supervision(r, i)
  {
    hide SettleFills, SettleWithdrawals, SameTerms;
    FillsTerms(r, fills);
    WithdrawalsTerms(SettleFills(r, fills), ws);
    var p := SettleWithdrawals(SettleFills(r, fills), ws);
    SameTermsAgain(r, SettleFills(r, fills), p);
    if fills != [] {
      ReferencedTerms(p, k, fills[|fills| - 1].price);
      SameTermsAgain(r, p, Referenced(p, k, fills[|fills| - 1].price));
    }
  }

  lemma ReferencedTerms(r: RiskState, k: nat, price: int)
    ensures SameTerms(r, Referenced(r, k, price))
  {
  }

  /** The price of the last trade on an instrument, if there was one. */
  function LastPrice(fills: seq<Fill>, i: nat, otherwise: int): int {
    if fills == [] then otherwise
    else if fills[|fills| - 1].instrument == i then fills[|fills| - 1].price
    else LastPrice(fills[..|fills| - 1], i, otherwise)
  }

  lemma {:induction false} LastPriceConcat(f: seq<Fill>, g: seq<Fill>, i: nat, otherwise: int)
    ensures LastPrice(f + g, i, otherwise) == LastPrice(g, i, LastPrice(f, i, otherwise))
  {
    if g == [] {
      assert f + g == f;
    } else {
      assert (f + g)[..|f + g| - 1] == f + g[..|g| - 1];
      LastPriceConcat(f, g[..|g| - 1], i, otherwise);
    }
  }

  /** Trades on one instrument, at prices above nothing. */
  predicate Priced(fills: seq<Fill>, k: nat) {
    forall j :: 0 <= j < |fills| ==> fills[j].instrument == k && fills[j].price > 0
  }

  lemma {:induction false} LastPriceOf(fills: seq<Fill>, k: nat, i: nat, otherwise: int)
    requires Priced(fills, k)
    ensures LastPrice(fills, i, otherwise) == if i == k && fills != [] then fills[|fills| - 1].price else otherwise
  {
    if fills != [] {
      LastPriceOf(fills[..|fills| - 1], k, i, otherwise);
    }
  }

  lemma InsertPriced(b: Book, o: Order)
    requires BookOk(b) && o.remaining <= o.quantity
    ensures b.instrument.WellFormed() && Priced(Insert(b, o).fills, b.instrument.id)
  {
    hide BookOk, Insert, Priority.InQueueOrder;
    BookWellFormed(b);
    var e, q := Insert(b, o), b.Queue(o.side.Opposite());
    var at := Priority.FillsFromTheFront(b, o);
    SelfTrade.InsertByPolicy(b, o);
    forall j | 0 <= j < |e.fills| ensures e.fills[j].instrument == b.instrument.id && e.fills[j].price > 0 {
      AgainstResting(b, o, e.fills, at, |q| - |e.book.Queue(o.side.Opposite())|, j);
    }
  }

  lemma AgainstResting(b: Book, o: Order, fs: seq<Fill>, at: seq<nat>, gone: nat, j: nat)
    requires BookOk(b) && Priority.InQueueOrder(fs, o, b.Queue(o.side.Opposite()), at, gone) && j < |fs|
    ensures fs[j].price > 0
  {
    var q := b.Queue(o.side.Opposite());
    assert Priority.Against(fs[j], o, q[at[j]]);
    BookOkBySide(b, o.side.Opposite());
    assert BookInvariant.Resting(q[at[j]], o.side.Opposite(), b.instrument);
  }

  lemma AfterInsertKeeps(r: RiskState, k: nat, book: Book, fills: seq<Fill>, ws: seq<Withdrawal>, id: nat, i: nat)
    requires Priced(fills, k)
    ensures var s := AfterInsert(r, k, book, fills, ws, id);
            && SameTerms(r, s)
            && Supervision(s, i) == if i == k && fills != []
                                    then Supervision(r, i).(reference := fills[|fills| - 1].price)
                                    else Supervision(r, i)
  {
    hide Settled, Committed, SameTerms, Lookup;
    SettledSupervision(r, k, fills, ws, i);
    var p := Settled(r, k, fills, ws);
    if book.Find(id).Some? {
      CommittedTerms(p, book.Find(id).value);
      SameTermsAgain(r, p, Committed(p, book.Find(id).value));
    }
  }

  lemma WithdrawnKeeps(r: RiskState, o: Order)
    ensures SameTerms(r, Withdrawn(r, o)) && Withdrawn(r, o).instruments == r.instruments
  {
    hide Released, Closed, SameTerms;
    ReleasedTerms(r, o.account, o.instrument, o.side, o.remaining);
    var p := Released(r, o.account, o.instrument, o.side, o.remaining);
    ClosedTerms(p, o.account);
    SameTermsAgain(r, p, Closed(p, o.account));
  }

  /** What a command does to the terms of accounts and instruments. */
  lemma EffectKeeps(r: RiskState, s: State, b: Body, now: int, i: nat)
    requires Orderly(s) && Defined(s) && Sane(b) && Passes(s, b) && !b.InstrumentDefined?
    ensures var t, fills := RiskAfter(r, s, b, now), FillsOf(s, b, now);
            && SameTerms(r, t) && Priced(fills, Target(b))
            && Supervision(t, i) == if i == Target(b) && fills != []
                                    then Supervision(r, i).(reference := fills[|fills| - 1].price)
                                    else Supervision(r, i)
  {
    hide BookOk, Fresh, Insert, Replace, Lookup, AfterReplace, Withdrawn, AfterInsert, SameTerms, Supervision;
    var book, n := s.books[Target(b)], s.sequence + 1;
    SameTermsNow(r);
    match b
    case NewOrderEntered(o) => SubmitKeeps(r, book, OrderOf(o, n, now), i);
    case OrderCancelled(c) =>
      var o := book.Find(c.id).value;
      WithdrawnKeeps(r, o);
      SameSupervision(r, Withdrawn(r, o), i);
    case OrderReplaced(c) => ReplaceKeeps(r, book, c.id, c.newPrice, c.newQuantity, n, now, i);
  }

  lemma SameSupervision(r: RiskState, s: RiskState, i: nat)
    requires s.instruments == r.instruments
    ensures Supervision(s, i) == Supervision(r, i)
  {
  }

  lemma SubmitKeeps(r: RiskState, b: Book, o: Order, i: nat)
    requires BookOk(b) && b.instrument.WellFormed() && Fresh(b, o.sequence) && o.remaining == o.quantity
    ensures var e, k := Submit(b, o), b.instrument.id;
            var s := AfterSubmit(r, k, e, o.id);
            && SameTerms(r, s) && Priced(e.fills, k)
            && Supervision(s, i) == if i == k && e.fills != []
                                    then Supervision(r, i).(reference := e.fills[|e.fills| - 1].price)
                                    else Supervision(r, i)
  {
    hide BookOk, Insert, Fresh, Settled, Committed, SameTerms, Lookup, Supervision;
    assert o.(remaining := o.quantity) == o;
    InsertPriced(b, o);
    SameTermsNow(r);
    var e, k := Insert(b, o), b.instrument.id;
    if e.result.reject == Accepted {
      AfterInsertKeeps(r, k, e.book, e.fills, e.withdrawals, o.id, i);
      InsertFinds(b, o);
    } else {
      NothingTradedWhenRefused(b, o);
    }
  }

  lemma NothingTradedWhenRefused(b: Book, o: Order)
    requires b.instrument.WellFormed() && Insert(b, o).result.reject != Accepted
    ensures Insert(b, o).fills == []
  {
    hide Matching.Run, Lookup;
  }

  lemma ReplaceKeeps(r: RiskState, b: Book, id: nat, price: int, quantity: nat, sequence: nat, now: int, i: nat)
    requires BookOk(b) && b.instrument.WellFormed() && b.Find(id).Some?
    ensures var e, k := Replace(b, id, price, quantity, sequence, now), b.instrument.id;
            var s := AfterReplace(r, b.Find(id).value, id, e);
            && SameTerms(r, s) && Priced(e.fills, k)
            && Supervision(s, i) == if i == k && e.fills != []
                                    then Supervision(r, i).(reference := e.fills[|e.fills| - 1].price)
                                    else Supervision(r, i)
  {
    hide BookOk, Lookup, Replace, Withdrawn, Committed, AfterInsert, SameTerms, Supervision;
    var e, o, k := Replace(b, id, price, quantity, sequence, now), b.Find(id).value, b.instrument.id;
    var at := FindLocates(b, id);
    var p := Withdrawn(r, o);
    WithdrawnKeeps(r, o);
    SameSupervision(r, p, i);
    RefusedReplace(b, id, price, quantity, sequence, now);
    if e.result.reject != Accepted {
      CommittedTerms(p, o);
      SameTermsAgain(r, p, Committed(p, o));
      SameSupervision(p, Committed(p, o), i);
    } else {
      ReplacePriced(b, id, price, quantity, sequence, now);
      AfterInsertKeeps(p, k, e.book, e.fills, e.withdrawals, id, i);
      SameTermsAgain(r, p, AfterInsert(p, k, e.book, e.fills, e.withdrawals, id));
    }
  }

  lemma ReplacePriced(b: Book, id: nat, price: int, quantity: nat, sequence: nat, now: int)
    requires BookOk(b) && b.instrument.WellFormed() && b.Find(id).Some?
    ensures Priced(Replace(b, id, price, quantity, sequence, now).fills, b.instrument.id)
  {
    hide BookOk, Lookup, Insert, Amend, RemoveOrder;
    var o := b.Find(id).value;
    var at := FindLocates(b, id);
    RemoveKeepsBook(b, id);
    RemoveInstrument(b, o);
    if quantity > o.Filled() {
      InsertPriced(RemoveOrder(b, o), Amended(o, price, quantity, sequence, now));
    }
  }

  /** Over every run the collar of an instrument is as it was set up, and measures from the price of
      the last trade on it; before there was one, from the price it was set up with. */
  lemma {:induction false} ReferencesKept(setup: Setup, attempts: seq<Attempt>, i: nat)
    requires AllSane(attempts)
    ensures var d, first := Actual(setup, attempts), Supervision(Opening(setup).risk, i);
            Supervision(d.risk, i) == Controls(first.collarBps, LastPrice(d.fills, i, first.reference))
  {
    hide Act, BookOk, Fresh, Supervision;
    if attempts != [] {
      var before, at := attempts[..|attempts| - 1], attempts[|attempts| - 1];
      ReferencesKept(setup, before, i);
      PositionsKept(setup, before, 0, i);
      ActReference(Actual(setup, before), setup, at, i, Supervision(Opening(setup).risk, i).reference);
    }
  }

  lemma ActReference(d: Desk, setup: Setup, at: Attempt, i: nat, first: int)
    requires Orderly(d.run.state) && Defined(d.run.state) && Sane(at.body)
    requires Supervision(d.risk, i).reference == LastPrice(d.fills, i, first)
    ensures var d' := Act(d, setup, at);
            Supervision(d'.risk, i) == Controls(Supervision(d.risk, i).collarBps, LastPrice(d'.fills, i, first))
  {
    hide BookOk, Fresh, Perform, RiskAfter, FillsOf, Check, Passes, Supervision, LastPrice, SameTerms, Priced;
    var r := Onboarded(d.risk, at.body, setup.limits);
    AskingKeepsCollars(d.risk, at.body, setup.limits, at.now, i);
    if TakesEffect(d, setup, at) {
      var asked, s := Verdict(r, at.body, at.now).1, d.run.state;
      if at.body.InstrumentDefined? {
        ListingPerformed(s, at.body, at.now, asked);
        ListingFills(s, at.body, at.now, 0, i);
        assert d.fills + [] == d.fills;
      } else {
        EffectKeeps(asked, s, at.body, at.now, i);
        LastPriceConcat(d.fills, FillsOf(s, at.body, at.now), i, first);
        LastPriceOf(FillsOf(s, at.body, at.now), Target(at.body), i, LastPrice(d.fills, i, first));
      }
    }
  }

  lemma AskingKeepsCollars(r: RiskState, b: Body, limits: AccountLimits, now: int, i: nat)
    ensures Supervision(Onboarded(r, b, limits), i) == Supervision(r, i)
    ensures Supervision(Verdict(Onboarded(r, b, limits), b, now).1, i) == Supervision(r, i)
  {
    hide Within, Collar, OnTime, NextArrival;
  }

  // ----- limits and rate budgets

  /** When an account's new orders were put to risk: those that named a known instrument and were not
      stopped by the kill switch. */
  function AskedAt(setup: Setup, attempts: seq<Attempt>, a: nat): seq<int>
    requires AllSane(attempts)
  {
    if attempts == [] then []
    else
      var before, at := attempts[..|attempts| - 1], attempts[|attempts| - 1];
      AskedAt(setup, before, a) + if Asks(Actual(setup, before).run.state, at, a) then [at.now] else []
  }

  predicate Asks(s: State, at: Attempt, a: nat) {
    && at.body.NewOrderEntered? && at.body.order.account == a && a != 0
    && at.body.order.instrument in s.books && at.admitted
  }

  /** Over every run every account has the limits it was given on first sight, and its rate budget is
      what the rate gate makes of the times its orders came: so the bounds on any window of the gate
      are bounds on what an account gets to the book. */
  lemma {:induction false} TermsKept(setup: Setup, attempts: seq<Attempt>, a: nat)
    requires AllSane(attempts)
    ensures var d := Actual(setup, attempts);
            if a in d.risk.accounts then
              && d.risk.accounts[a].limits == setup.limits
              && d.risk.accounts[a].arrival == ArrivalAfter(setup.limits, 0, AskedAt(setup, attempts, a))
            else AskedAt(setup, attempts, a) == []
  {
    hide Act, BookOk, Fresh, Asks, NextArrival;
    if attempts != [] {
      var before, at := attempts[..|attempts| - 1], attempts[|attempts| - 1];
      TermsKept(setup, before, a);
      PositionsKept(setup, before, a, 0);
      var d, times := Actual(setup, before), AskedAt(setup, before, a);
      ActTerms(d, setup, at, a);
      if Asks(d.run.state, at, a) {
        assert (times + [at.now])[..|times|] == times;
      } else {
        assert times + [] == times;
      }
    }
  }

  lemma ActTerms(d: Desk, setup: Setup, at: Attempt, a: nat)
    requires Orderly(d.run.state) && Defined(d.run.state) && Sane(at.body) && AllKnown(d)
    ensures var r, s := d.risk, Act(d, setup, at).risk;
            && (a in s.accounts <==> a in r.accounts || (at.body.NewOrderEntered? && at.body.order.account == a))
            && (Asks(d.run.state, at, a) ==> a in s.accounts)
            && (a in s.accounts ==>
                  var limits, arrival := if a in r.accounts then r.accounts[a].limits else setup.limits,
                                         if a in r.accounts then r.accounts[a].arrival else 0;
                  && s.accounts[a].limits == limits
                  && s.accounts[a].arrival == if Asks(d.run.state, at, a) then NextArrival(limits, arrival, at.now)
                                              else arrival)
  {
    hide BookOk, Fresh, Perform, RiskAfter, FillsOf, SameTerms, BookAccountsIn, PartiesKnown, Check, NextArrival,
         AllKnown;
    var r, s := Onboarded(d.risk, at.body, setup.limits), d.run.state;
    AskedOnce(r, at.body, at.now, a);
    if TakesEffect(d, setup, at) {
      var asked := Verdict(r, at.body, at.now).1;
      if at.body.InstrumentDefined? {
        ListingPerformed(s, at.body, at.now, asked);
      } else {
        EffectKeeps(asked, s, at.body, at.now, 0);
        if a in asked.accounts {
          SameTermsOf(asked, RiskAfter(asked, s, at.body, at.now), a);
        }
        var mid := d.(risk := asked);
        AskingChangesNothing(d.risk, at.body, setup.limits, at.now, a);
        KnownMore(d, mid);
        PerformOne(s, at.body, at.now);
        KnownHere(mid, Target(at.body));
        EffectPositions(asked, s, at.body, at.now, a, 0);
      }
    }
  }

  lemma SameTermsOf(r: RiskState, s: RiskState, a: nat)
    requires SameTerms(r, s) && a in r.accounts
    ensures a in s.accounts && s.accounts[a].limits == r.accounts[a].limits
            && s.accounts[a].arrival == r.accounts[a].arrival
  {
  }

  lemma AskedOnce(r: RiskState, b: Body, now: int, a: nat)
    requires b.NewOrderEntered? ==> b.order.account in r.accounts
    ensures var s := Verdict(r, b, now).1;
            && s.accounts.Keys == r.accounts.Keys
            && (a in r.accounts ==>
                  && s.accounts[a].limits == r.accounts[a].limits
                  && s.accounts[a].arrival == if b.NewOrderEntered? && b.order.account == a
                                              then NextArrival(r.accounts[a].limits, r.accounts[a].arrival, now)
                                              else r.accounts[a].arrival)
  {
    hide Within, Collar;
  }
}

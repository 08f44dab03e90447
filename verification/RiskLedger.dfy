/** The risk ledger against the book: what is recorded as open and working, and
    what actually rests. */
module RiskLedger {
  import opened Types
  import opened Matching
  import opened BookInvariant
  import opened BookSteps
  import opened FillPrediction
  import Priority
  import Ledger
  import opened Amendments
  import opened Risk
  import opened RiskSettle

  /** How many orders of a queue are the account's. */
  function Held(q: seq<Order>, a: nat): nat {
    if q == [] then 0 else (if q[0].account == a then 1 else 0) + Held(q[1..], a)
  }

  /** What is left of them to trade. */
  function Remaining(q: seq<Order>, a: nat): nat {
    if q == [] then 0 else (if q[0].account == a then q[0].remaining else 0) + Remaining(q[1..], a)
  }

  function Count(b: Book, a: nat): nat { Held(b.bids, a) + Held(b.asks, a) }

  function Resting(b: Book, a: nat, side: Side): nat { Remaining(b.Queue(side), a) }

  // ----- edits

  lemma {:induction false} PlaceHolds(q: seq<Order>, o: Order, a: nat)
    ensures Held(Place(q, o), a) == Held(q, a) + (if o.account == a then 1 else 0)
    ensures Remaining(Place(q, o), a) == Remaining(q, a) + (if o.account == a then o.remaining else 0)
  {
    if q == [] || BetterPrice(o.side, o.price, q[0].price) {
      assert ([o] + q)[1..] == q;
    } else {
      PlaceHolds(q[1..], o, a);
      assert ([q[0]] + Place(q[1..], o))[1..] == Place(q[1..], o);
    }
  }

  lemma {:induction false} WithoutHolds(q: seq<Order>, id: nat, a: nat)
    requires Lookup(q, id).Some?
    ensures var o := Lookup(q, id).value;
            && Held(q, a) == Held(Without(q, id), a) + (if o.account == a then 1 else 0)
            && Remaining(q, a) == Remaining(Without(q, id), a) + (if o.account == a then o.remaining else 0)
  {
    if q[0].id != id {
      WithoutHolds(q[1..], id, a);
      assert ([q[0]] + Without(q[1..], id))[1..] == Without(q[1..], id);
    }
  }

  lemma {:induction false} AmendHolds(q: seq<Order>, o: Order, a: nat)
    requires Lookup(q, o.id).Some? && Lookup(q, o.id).value.account == o.account
    ensures Held(Amend(q, o), a) == Held(q, a)
    ensures Remaining(Amend(q, o), a) + (if o.account == a then Lookup(q, o.id).value.remaining else 0)
            == Remaining(q, a) + (if o.account == a then o.remaining else 0)
  {
    if q[0].id == o.id {
      assert ([o] + q[1..])[1..] == q[1..];
    } else {
      AmendHolds(q[1..], o, a);
      assert ([q[0]] + Amend(q[1..], o))[1..] == Amend(q[1..], o);
    }
  }

  // ----- matching, account by account

  lemma TakenAppend(fills: seq<Fill>, f: Fill, a: nat)
    ensures TakenFrom(fills + [f], a) == TakenFrom(fills, a) + (if f.restingAccount == a then f.quantity else 0)
    ensures EmptiedOf(fills + [f], a) == EmptiedOf(fills, a)
            + (if f.restingAccount == a && f.restingFilled then 1 else 0)
  {
    assert (fills + [f])[..|fills|] == fills;
  }

  lemma WithdrawnAppend(ws: seq<Withdrawal>, w: Withdrawal, a: nat)
    ensures WithdrawnFrom(ws + [w], a) == WithdrawnFrom(ws, a) + (if w.account == a then w.quantity else 0)
    ensures RemovedOf(ws + [w], a) == RemovedOf(ws, a) + (if w.account == a && w.fullyRemoved then 1 else 0)
  {
    assert (ws + [w])[..|ws|] == ws;
  }

  function HeldAccount(s: MatchState, a: nat): nat {
    Held(s.queue, a) + EmptiedOf(s.fills, a) + RemovedOf(s.withdrawals, a)
  }

  function RemainingAccount(s: MatchState, a: nat): nat {
    Remaining(s.queue, a) + TakenFrom(s.fills, a) + WithdrawnFrom(s.withdrawals, a)
  }

  lemma FrontReplaced(front: seq<Order>, q: seq<Order>, a: nat)
    requires q != [] && |front| <= 1 && (front != [] ==> front[0].account == q[0].account)
    ensures Held(front + q[1..], a) == Held(q, a) - (if front == [] && q[0].account == a then 1 else 0)
    ensures Remaining(front + q[1..], a) ==
            Remaining(q, a) - (if q[0].account == a
                               then q[0].remaining - (if front == [] then 0 else front[0].remaining) else 0)
  {
    if front == [] {
      assert front + q[1..] == q[1..];
    } else {
      assert (front + q[1..])[1..] == q[1..];
    }
  }

  lemma StepAccounts(inst: Instrument, s: MatchState, a: nat)
    requires !Finished(s)
    ensures HeldAccount(Step(inst, s), a) == HeldAccount(s, a)
    ensures RemainingAccount(Step(inst, s), a) == RemainingAccount(s, a)
  {
    hide Held, Remaining, TakenFrom, EmptiedOf, WithdrawnFrom, RemovedOf;
    var resting := s.queue[0];
    FrontReplaced([], s.queue, a);
    assert [] + s.queue[1..] == s.queue[1..];
    if PreventionActive(inst.selfTradePolicy, s.incoming) && resting.account == s.incoming.account {
      var overlap := Min(s.incoming.remaining, resting.remaining);
      FrontReplaced([Decremented(resting, overlap)], s.queue, a);
      WithdrawnAppend(s.withdrawals, WithdrawalOf(resting, inst.id, resting.remaining, true), a);
      WithdrawnAppend(s.withdrawals, WithdrawalOf(resting, inst.id, overlap, resting.remaining == overlap), a);
    } else {
      var quantity := Min(s.incoming.remaining, resting.remaining);
      FrontReplaced([resting.(remaining := resting.remaining - quantity)], s.queue, a);
      TakenAppend(s.fills, FillOf(inst, s.incoming, resting, quantity, s.nextTradeId), a);
    }
  }

  /** The reports of a match are all of the one incoming order, against the one side. */
  predicate Uniform(inst: Instrument, s: MatchState, side: Side) {
    && OfOne(s.fills, s.incoming.account, s.incoming.side, inst.id) && WithdrawnOn(s.withdrawals, side, inst.id)
    && forall i :: 0 <= i < |s.queue| ==> s.queue[i].side == side
  }

  lemma StepUniform(inst: Instrument, s: MatchState, side: Side)
    requires !Finished(s) && Live(s.queue) && Uniform(inst, s, side)
    ensures Uniform(inst, Step(inst, s), side)
  {
    hide Step, OfOne, WithdrawnOn;
    var t := Step(inst, s);
    StepReports(inst, s, side);
    StepResidue(inst, s);
    forall i | 0 <= i < |t.queue| ensures t.queue[i].side == side {
      ResidueAt(t.queue, s.queue, |s.queue| - |t.queue|, i);
    }
  }

  lemma StepReports(inst: Instrument, s: MatchState, side: Side)
    requires !Finished(s) && s.queue[0].side == side
    requires OfOne(s.fills, s.incoming.account, s.incoming.side, inst.id) && WithdrawnOn(s.withdrawals, side, inst.id)
    ensures var t := Step(inst, s);
            OfOne(t.fills, t.incoming.account, t.incoming.side, inst.id) && WithdrawnOn(t.withdrawals, side, inst.id)
  {
  }

  lemma {:induction false} RunAccounts(inst: Instrument, s: MatchState, side: Side, a: nat)
    requires Live(s.queue) && Uniform(inst, s, side)
    ensures var r := Run(inst, s);
            && HeldAccount(r, a) == HeldAccount(s, a) && RemainingAccount(r, a) == RemainingAccount(s, a)
            && Uniform(inst, r, side) && r.incoming.account == s.incoming.account && r.incoming.side == s.incoming.side
    decreases Measure(s)
  {
    hide Step, Uniform, HeldAccount, RemainingAccount;
    if !Finished(s) {
      StepAccounts(inst, s, a);
      StepUniform(inst, s, side);
      StepResidue(inst, s);
      StepShrinks(inst, s);
      Priority.StepFill(inst, s);
      RunAccounts(inst, Step(inst, s), side, a);
    }
  }

  // ----- one insert

  /** What stands on the book after an accepted insert, account by account. */
  lemma InsertAccounts(b: Book, o: Order, a: nat)
    requires BookOk(b) && b.instrument.WellFormed() && o.remaining <= o.quantity
             && Insert(b, o).result.reject == Accepted
    ensures var e := Insert(b, o);
            && OfOne(e.fills, o.account, o.side, b.instrument.id)
            && WithdrawnOn(e.withdrawals, o.side.Opposite(), b.instrument.id)
            && Held(e.book.Queue(o.side.Opposite()), a) + EmptiedOf(e.fills, a) + RemovedOf(e.withdrawals, a)
                 == Held(b.Queue(o.side.Opposite()), a)
            && Held(e.book.Queue(o.side), a) == Held(b.Queue(o.side), a)
            + (if e.result.rested && o.account == a then 1 else 0)
            && Resting(e.book, a, o.side.Opposite()) + TakenFrom(e.fills, a) + WithdrawnFrom(e.withdrawals, a)
                 == Resting(b, a, o.side.Opposite())
            && Resting(e.book, a, o.side) == Resting(b, a, o.side)
            + (if e.result.rested && o.account == a then Leftover(b, o) else 0)
  {
    hide BookOk, Run, Place, Admission, Held, Remaining, Uniform, EmptiedOf, RemovedOf, TakenFrom, WithdrawnFrom;
    var side := o.side.Opposite();
    var s := Start(b, o);
    QueueLive(b, side);
    StartUniform(b, o);
    RunAccounts(b.instrument, s, side, a);
    NoReports(a);
    MatchedIncoming(b, o);
    var r := Run(b.instrument, s);
    UniformReports(b.instrument, r, side);
    if Rests(o, r.incoming.remaining) {
      PlaceHolds(b.Queue(o.side), r.incoming, a);
    }
  }

  function Leftover(b: Book, o: Order): nat { Run(b.instrument, Start(b, o)).incoming.remaining }

  lemma StartUniform(b: Book, o: Order)
    requires BookOk(b)
    ensures Uniform(b.instrument, Start(b, o), o.side.Opposite())
  {
    hide BookOk;
    Priority.SideFacts(b, o.side.Opposite());
  }

  lemma UniformReports(inst: Instrument, s: MatchState, side: Side)
    requires Uniform(inst, s, side)
    ensures OfOne(s.fills, s.incoming.account, s.incoming.side, inst.id) && WithdrawnOn(s.withdrawals, side, inst.id)
  {
  }

  lemma NoReports(a: nat)
    ensures EmptiedOf([], a) == 0 && RemovedOf([], a) == 0 && TakenFrom([], a) == 0 && WithdrawnFrom([], a) == 0
  {
  }

  /** After an insert the order is on the book exactly if it was reported to rest. */
  lemma InsertFinds(b: Book, o: Order)
    requires BookOk(b) && b.instrument.WellFormed() && Fresh(b, o.sequence) && o.remaining <= o.quantity
    requires Insert(b, o).result.reject == Accepted
    ensures var e := Insert(b, o);
            if e.result.rested then
              && e.book.Find(o.id).Some?
              && var x := e.book.Find(o.id).value;
                 x.account == o.account && x.side == o.side && x.instrument == b.instrument.id
                 && x.remaining == Leftover(b, o)
            else e.book.Find(o.id).None?
  {
    hide BookOk, Run, Place, Admission, Lookup, Fresh;
    var e, side := Insert(b, o), o.side.Opposite();
    var r := Run(b.instrument, Start(b, o));
    InsertKeepsBook(b, o);
    MatchedIncoming(b, o);
    Ledger.AdmittedHere(b, o);
    if e.result.rested {
      var k := PlaceRank(b.Queue(o.side), r.incoming);
      assert e.book.Queue(o.side)[k] == r.incoming;
      Ledger.FoundHere(e.book, o.side, k);
    } else {
      Ledger.StillAbsent(b, o);
    }
  }

  /** Risk after an insert: settle the reports, then record the order if it is on the book. */
  function AfterInsert(r: RiskState, instrument: nat, book: Book, fills: seq<Fill>, ws: seq<Withdrawal>,
                       id: nat): RiskState {
    var s := Settled(r, instrument, fills, ws);
    match book.Find(id)
    case None => s
    case Some(x) => Committed(s, x)
  }

  /** Risk after a submission. */
  function AfterSubmit(r: RiskState, instrument: nat, e: Effect<SubmitResult>, id: nat): RiskState {
    if e.result.reject != Accepted then r
    else
      var s := Settled(r, instrument, e.fills, e.withdrawals);
      if e.result.rested && e.book.Find(id).Some? then Committed(s, e.book.Find(id).value) else s
  }

  /** Known before the order goes in: it is admitted, it will be filled in part at least, and its
      account already rests on its side. */
  predicate TakesWhereItRests(b: Book, o: Order)
    requires b.instrument.WellFormed()
  {
    && Admission(b, o) == Accepted
    && Predict(b.instrument, b.Queue(o.side.Opposite()), o, o.remaining) > 0
    && Resting(b, o.account, o.side) > 0
  }

  /** An accepted insert reports fills exactly when some are predicted. */
  lemma FillsForeseen(b: Book, o: Order)
    requires BookOk(b) && b.instrument.WellFormed() && o.remaining <= o.quantity
             && Insert(b, o).result.reject == Accepted
    ensures Admission(b, o) == Accepted
    ensures FillTotal(Insert(b, o).fills) == Predict(b.instrument, b.Queue(o.side.Opposite()), o, o.remaining)
    ensures Insert(b, o).fills != [] <==> FillTotal(Insert(b, o).fills) > 0
  {
    hide BookOk, Run, Predict, Place, Admission;
    QueueLive(b, o.side.Opposite());
    PredictExact(b.instrument, Start(b, o));
    NothingFilled();
    var at := Priority.FillsFromTheFront(b, o);
    if Insert(b, o).fills != [] {
      SomethingFilled(Insert(b, o).fills);
    }
  }

  /** One account's line of the ledger on one instrument: no more working than resting. */
  predicate Covered(r: RiskState, b: Book, a: nat) {
    var i := b.instrument.id;
    r.Working(a, i, Buy) <= Resting(b, a, Buy) && r.Working(a, i, Sell) <= Resting(b, a, Sell)
  }

  predicate Exact(r: RiskState, b: Book, a: nat) {
    var i := b.instrument.id;
    r.Working(a, i, Buy) == Resting(b, a, Buy) && r.Working(a, i, Sell) == Resting(b, a, Sell)
  }

  /** The ledger moves with the book, from `r` and `b` to `r'` and `b'`. */
  ghost predicate Follows(r: RiskState, b: Book, r': RiskState, b': Book, a: nat, takes: bool) {
    && b'.instrument == b.instrument
    && r'.OpenOrders(a) + Count(b, a) == r.OpenOrders(a) + Count(b', a)
    && (Covered(r, b, a) ==> Covered(r', b', a))
    && (Exact(r, b, a) && !takes ==> Exact(r', b', a))
    && (forall i, d :: i != b.instrument.id ==> r'.Working(a, i, d) == r.Working(a, i, d))
  }

  /** The account's working quantity after an insert, on any instrument and side. */
  lemma InsertWorking(r: RiskState, b: Book, o: Order, a: nat, j: nat, d: Side)
    requires BookOk(b) && b.instrument.WellFormed() && Fresh(b, o.sequence) && o.remaining <= o.quantity
    requires Insert(b, o).result.reject == Accepted
    ensures var e := Insert(b, o);
            var r' := AfterInsert(r, b.instrument.id, e.book, e.fills, e.withdrawals, o.id);
            && r'.OpenOrders(a) == Drop(r.OpenOrders(a), EmptiedOf(e.fills, a) + RemovedOf(e.withdrawals, a))
                 + (if e.result.rested && a == o.account then 1 else 0)
            && r'.Working(a, j, d) ==
                 Drop(r.Working(a, j, d),
                      if j != b.instrument.id then 0
                      else if d == o.side then (if a == o.account then FillTotal(e.fills) else 0)
                      else TakenFrom(e.fills, a) + WithdrawnFrom(e.withdrawals, a))
                 + (if e.result.rested && a == o.account && j == b.instrument.id && d == o.side then Leftover(b, o)
                    else 0)
            && r'.accounts.Keys == r.accounts.Keys + (if e.result.rested then {o.account} else {})
  {
    hide BookOk, Insert, Fresh, Lookup, Held, Remaining, Settled, Committed, RiskState.Working, RiskState.OpenOrders,
         Leftover, EmptiedOf, RemovedOf, TakenFrom, WithdrawnFrom, FillTotal;
    var e, i := Insert(b, o), b.instrument.id;
    InsertAccounts(b, o, a);
    InsertFinds(b, o);
    SettledEffect(r, e.fills, e.withdrawals, o.account, o.side, i, a, j);
    if e.result.rested {
      CommittedEffect(Settled(r, i, e.fills, e.withdrawals), e.book.Find(o.id).value, a, j, d);
    }
    assert d == o.side || d == o.side.Opposite();
  }

  lemma InsertFollows(r: RiskState, b: Book, o: Order, a: nat)
    requires BookOk(b) && b.instrument.WellFormed() && Fresh(b, o.sequence) && o.remaining <= o.quantity
    requires Insert(b, o).result.reject == Accepted && r.OpenOrders(a) >= Count(b, a)
    ensures var e := Insert(b, o);
            Follows(r, b, AfterInsert(r, b.instrument.id, e.book, e.fills, e.withdrawals, o.id), e.book, a,
                    TakesWhereItRests(b, o))
  {
    hide BookOk, Insert, Fresh, Lookup, Held, Remaining, RiskState.Working, RiskState.OpenOrders, Leftover,
         EmptiedOf, RemovedOf, TakenFrom, WithdrawnFrom, FillTotal, AfterInsert, Predict, Admission;
    var e, i := Insert(b, o), b.instrument.id;
    var r' := AfterInsert(r, i, e.book, e.fills, e.withdrawals, o.id);
    InsertKeepsBook(b, o);
    InsertAccounts(b, o, a);
    InsertWorking(r, b, o, a, i, o.side);
    InsertWorking(r, b, o, a, i, o.side.Opposite());
    FillsForeseen(b, o);
    forall j, d | j != i ensures r'.Working(a, j, d) == r.Working(a, j, d) {
      InsertWorking(r, b, o, a, j, d);
    }
    BothSides(r, b, a, o.side);
    BothSides(r', e.book, a, o.side);
  }

  lemma NothingFilled()
    ensures FillTotal([]) == 0
  {
  }

  lemma BothSides(r: RiskState, b: Book, a: nat, side: Side)
    ensures Covered(r, b, a) <==> r.Working(a, b.instrument.id, side) <= Resting(b, a, side)
                                  && r.Working(a, b.instrument.id, side.Opposite()) <= Resting(b, a, side.Opposite())
    ensures Exact(r, b, a) <==> r.Working(a, b.instrument.id, side) == Resting(b, a, side)
                                && r.Working(a, b.instrument.id, side.Opposite()) == Resting(b, a, side.Opposite())
  {
    hide RiskState.Working, Resting;
  }

  // ----- taking an order off, and putting one on

  lemma RemoveHolds(b: Book, id: nat, a: nat)
    requires BookOk(b) && b.Find(id).Some?
    ensures var o := b.Find(id).value;
            var c := RemoveOrder(b, o);
            && Count(b, a) == Count(c, a) + (if o.account == a then 1 else 0)
            && Resting(b, a, o.side) == Resting(c, a, o.side) + (if o.account == a then o.remaining else 0)
            && Resting(c, a, o.side.Opposite()) == Resting(b, a, o.side.Opposite())
  {
    hide BookOk, Lookup, Without, Held, Remaining;
    var o := b.Find(id).value;
    var k := FindLocates(b, id);
    BookOkBySideUnique(b, o.side);
    LookupAt(b.Queue(o.side), k);
    WithoutHolds(b.Queue(o.side), id, a);
  }

  /** Risk when an order leaves the book untraded. */
  function Withdrawn(r: RiskState, o: Order): RiskState {
    Closed(Released(r, o.account, o.instrument, o.side, o.remaining), o.account)
  }

  lemma WithdrawnEffect(r: RiskState, o: Order, a: nat, j: nat, d: Side)
    ensures var s := Withdrawn(r, o);
            && s.accounts.Keys == r.accounts.Keys
            && s.OpenOrders(a) == Drop(r.OpenOrders(a), if a == o.account then 1 else 0)
            && s.Working(a, j, d) == Drop(r.Working(a, j, d), if a == o.account && j == o.instrument && d == o.side
                                          then o.remaining else 0)
            && s.Exposed(a, j).net == r.Exposed(a, j).net
  {
    hide Closed, Released, RiskState.OpenOrders, RiskState.Exposed;
    ReleasedEffect(r, o.account, o.instrument, o.side, o.remaining, a, j, d);
    ClosedEffect(Released(r, o.account, o.instrument, o.side, o.remaining), o.account, a, j);
  }

  lemma RemoveFollows(r: RiskState, b: Book, id: nat, a: nat)
    requires BookOk(b) && b.Find(id).Some? && r.OpenOrders(a) >= Count(b, a)
    ensures var o := b.Find(id).value;
            Follows(r, b, Withdrawn(r, o), RemoveOrder(b, o), a, false)
  {
    hide BookOk, Lookup, Without, Held, Remaining, RiskState.Working, RiskState.OpenOrders, Withdrawn;
    var o, i := b.Find(id).value, b.instrument.id;
    var k := FindLocates(b, id);
    var r', c := Withdrawn(r, o), RemoveOrder(b, o);
    RemoveHolds(b, id, a);
    WithdrawnEffect(r, o, a, i, o.side);
    WithdrawnEffect(r, o, a, i, o.side.Opposite());
    forall j, d | j != i ensures r'.Working(a, j, d) == r.Working(a, j, d) {
      WithdrawnEffect(r, o, a, j, d);
    }
    BothSides(r, b, a, o.side);
    BothSides(r', c, a, o.side);
  }

  /** Recording an order that was put on the book where it had not been. */
  lemma PutFollows(r: RiskState, b: Book, x: Order, c: Book, a: nat)
    requires c.instrument == b.instrument && x.instrument == b.instrument.id
    requires Count(c, a) == Count(b, a) + (if x.account == a then 1 else 0)
    requires Resting(c, a, x.side) == Resting(b, a, x.side) + (if x.account == a then x.remaining else 0)
    requires Resting(c, a, x.side.Opposite()) == Resting(b, a, x.side.Opposite())
    ensures Follows(r, b, Committed(r, x), c, a, false)
  {
    hide Held, Remaining, RiskState.Working, RiskState.OpenOrders, Committed;
    var r', i := Committed(r, x), b.instrument.id;
    CommittedEffect(r, x, a, i, x.side);
    CommittedEffect(r, x, a, i, x.side.Opposite());
    forall j, d | j != i ensures r'.Working(a, j, d) == r.Working(a, j, d) {
      CommittedEffect(r, x, a, j, d);
    }
    BothSides(r, b, a, x.side);
    BothSides(r', c, a, x.side);
  }

  lemma FollowsOn(r: RiskState, b: Book, r1: RiskState, b1: Book, r2: RiskState, b2: Book, a: nat, takes: bool)
    requires Follows(r, b, r1, b1, a, false) && Follows(r1, b1, r2, b2, a, takes)
    ensures Follows(r, b, r2, b2, a, takes)
  {
    hide RiskState.Working, RiskState.OpenOrders, Covered, Exact, Count;
  }

  // ----- one replace

  /** Risk after a replace: released first, recorded again afterwards. */
  function AfterReplace(r: RiskState, previous: Order, id: nat, e: Effect<ReplaceResult>): RiskState {
    var released := Withdrawn(r, previous);
    if e.result.reject != Accepted then Committed(released, previous)
    else AfterInsert(released, previous.instrument, e.book, e.fills, e.withdrawals, id)
  }

  predicate ReplaceTakes(b: Book, id: nat, price: int, quantity: nat, sequence: nat, now: int)
    requires b.instrument.WellFormed()
  {
    && Requeues(b, id, price, quantity)
    && var o := b.Find(id).value; TakesWhereItRests(RemoveOrder(b, o), Amended(o, price, quantity, sequence, now))
  }

  lemma SettledNothing(r: RiskState, instrument: nat)
    ensures Settled(r, instrument, [], []) == r
  {
  }

  lemma ReductionFollows(r: RiskState, b: Book, id: nat, x: Order, a: nat)
    requires BookOk(b) && b.Find(id).Some? && r.OpenOrders(a) >= Count(b, a)
    requires x == b.Find(id).value.(quantity := x.quantity, remaining := x.remaining)
    ensures var o := b.Find(id).value;
            Follows(r, b, Committed(Withdrawn(r, o), x), b.WithQueue(o.side, Amend(b.Queue(o.side), x)), a, false)
  {
    hide BookOk, Lookup, Without, Held, Remaining, RiskState.Working, RiskState.OpenOrders, Withdrawn, Committed, Amend;
    var o := b.Find(id).value;
    var k := FindLocates(b, id);
    var b1, c, r1 := RemoveOrder(b, o), b.WithQueue(o.side, Amend(b.Queue(o.side), x)), Withdrawn(r, o);
    BookOkBySideUnique(b, o.side);
    LookupAt(b.Queue(o.side), k);
    RemoveFollows(r, b, id, a);
    RemoveHolds(b, id, a);
    AmendHolds(b.Queue(o.side), x, a);
    PutFollows(r1, b1, x, c, a);
    FollowsOn(r, b, r1, b1, Committed(r1, x), c, a, false);
  }

  lemma RefusedFollows(r: RiskState, b: Book, id: nat, a: nat)
    requires BookOk(b) && b.Find(id).Some? && r.OpenOrders(a) >= Count(b, a)
    ensures var o := b.Find(id).value; Follows(r, b, Committed(Withdrawn(r, o), o), b, a, false)
  {
    hide BookOk, Lookup, Without, Held, Remaining, RiskState.Working, RiskState.OpenOrders, Withdrawn, Committed;
    var o := b.Find(id).value;
    var k := FindLocates(b, id);
    var b1, r1 := RemoveOrder(b, o), Withdrawn(r, o);
    RemoveFollows(r, b, id, a);
    RemoveHolds(b, id, a);
    PutFollows(r1, b1, o, b, a);
    FollowsOn(r, b, r1, b1, Committed(r1, o), b, a, false);
  }

  lemma RequeueFollows(r: RiskState, b: Book, id: nat, price: int, quantity: nat, sequence: nat, now: int, a: nat)
    requires BookOk(b) && b.instrument.WellFormed() && Fresh(b, sequence) && r.OpenOrders(a) >= Count(b, a)
    requires Requeues(b, id, price, quantity) && !RequeueCrosses(b, id, price, quantity)
    ensures var o := b.Find(id).value;
            var e := Insert(RemoveOrder(b, o), Amended(o, price, quantity, sequence, now));
            Follows(r, b, AfterInsert(Withdrawn(r, o), o.instrument, e.book, e.fills, e.withdrawals, id), e.book, a,
                    ReplaceTakes(b, id, price, quantity, sequence, now))
  {
    hide BookOk, Lookup, Without, Held, Remaining, RiskState.Working, RiskState.OpenOrders, Withdrawn, Fresh, Run,
         AfterInsert, RequeueCrosses, Follows, Admission, TakesWhereItRests;
    var o := b.Find(id).value;
    var k := FindLocates(b, id);
    var b1, r1, x := RemoveOrder(b, o), Withdrawn(r, o), Amended(o, price, quantity, sequence, now);
    RequeueAdmission(b, id, price, quantity, sequence, now);
    RemoveFollows(r, b, id, a);
    RemoveKeepsBook(b, id);
    StillOpen(r, b, r1, b1, a);
    InsertFollows(r1, b1, x, a);
    var e := Insert(b1, x);
    FollowsOn(r, b, r1, b1, AfterInsert(r1, o.instrument, e.book, e.fills, e.withdrawals, id), e.book, a,
              TakesWhereItRests(b1, x));
  }

  lemma StillOpen(r: RiskState, b: Book, r': RiskState, b': Book, a: nat)
    requires Follows(r, b, r', b', a, false) && r.OpenOrders(a) >= Count(b, a)
    ensures r'.OpenOrders(a) >= Count(b', a)
  {
  }

  /** A replace moves the ledger with the book, unless it is a post-only re-queue that crosses. */
  lemma ReplaceFollows(r: RiskState, b: Book, id: nat, price: int, quantity: nat, sequence: nat, now: int, a: nat)
    requires BookOk(b) && b.instrument.WellFormed() && Fresh(b, sequence) && r.OpenOrders(a) >= Count(b, a)
    requires b.Find(id).Some? && !RequeueCrosses(b, id, price, quantity)
    ensures var e := Replace(b, id, price, quantity, sequence, now);
            Follows(r, b, AfterReplace(r, b.Find(id).value, id, e), e.book, a,
                    ReplaceTakes(b, id, price, quantity, sequence, now))
  {
    hide BookOk, Lookup, Without, Run, Fresh, Withdrawn, Committed, Settled, Amend, RemoveOrder, Insert, RequeueCrosses,
         TakesWhereItRests, RiskState.OpenOrders, Count, Follows, Instrument.IsValidPrice, Instrument.IsValidQuantity;
    var o := b.Find(id).value;
    var k := FindLocates(b, id);
    RefusedReplace(b, id, price, quantity, sequence, now);
    if Requeues(b, id, price, quantity) {
      RequeueFollows(r, b, id, price, quantity, sequence, now, a);
      RequeueAccepted(b, id, price, quantity, sequence, now);
    } else {
      var e := Replace(b, id, price, quantity, sequence, now);
      SettledNothing(Withdrawn(r, o), o.instrument);
      if e.result.reject != Accepted {
        RefusedFollows(r, b, id, a);
      } else if quantity <= o.Filled() {
        RemoveFollows(r, b, id, a);
        RemovedIsGone(b, id);
      } else {
        var x := o.(quantity := quantity, remaining := quantity - o.Filled());
        ReductionFollows(r, b, id, x, a);
        Ledger.AmendedIsFound(b, id, x);
      }
    }
  }

  lemma RequeueAccepted(b: Book, id: nat, price: int, quantity: nat, sequence: nat, now: int)
    requires BookOk(b) && b.instrument.WellFormed() && Requeues(b, id, price, quantity)
             && !RequeueCrosses(b, id, price, quantity)
    ensures Insert(RemoveOrder(b, b.Find(id).value),
                   Amended(b.Find(id).value, price, quantity, sequence, now)).result.reject == Accepted
    ensures b.Find(id).value.instrument == b.instrument.id
  {
    hide BookOk, Lookup, Without, Run, Admission, RequeueCrosses;
    RequeueAdmission(b, id, price, quantity, sequence, now);
    var k := FindLocates(b, id);
  }

  // ----- exactly when the ledger and the book part

  /** A replace keeps the count of open orders right exactly when it is not a post-only re-queue
      that crosses: that order leaves the book and stays on the ledger. */
  lemma ReplaceCountsExactly(r: RiskState, b: Book, id: nat, price: int, quantity: nat, sequence: nat, now: int)
    requires BookOk(b) && b.instrument.WellFormed() && Fresh(b, sequence) && b.Find(id).Some?
    requires r.OpenOrders(b.Find(id).value.account) == Count(b, b.Find(id).value.account)
    ensures var e, a := Replace(b, id, price, quantity, sequence, now), b.Find(id).value.account;
            AfterReplace(r, b.Find(id).value, id, e).OpenOrders(a) == Count(e.book, a) <==>
                !RequeueCrosses(b, id, price, quantity)
  {
    hide BookOk, Lookup, Without, Run, Fresh, Withdrawn, Committed, Settled, Amend, RemoveOrder, Insert,
         RequeueCrosses, Replace, RiskState.OpenOrders, Count, AfterInsert;
    var o := b.Find(id).value;
    var a := o.account;
    var e := Replace(b, id, price, quantity, sequence, now);
    RefusedReplace(b, id, price, quantity, sequence, now);
    if RequeueCrosses(b, id, price, quantity) {
      RemoveHolds(b, id, a);
      WithdrawnEffect(r, o, a, 0, Buy);
      CommittedEffect(Withdrawn(r, o), o, a, 0, Buy);
    } else {
      ReplaceFollows(r, b, id, price, quantity, sequence, now, a);
    }
  }

  /** And it keeps working quantity from exceeding what rests under the same condition. */
  lemma ReplaceCoversExactly(r: RiskState, b: Book, id: nat, price: int, quantity: nat, sequence: nat, now: int)
    requires BookOk(b) && b.instrument.WellFormed() && Fresh(b, sequence) && b.Find(id).Some?
    requires r.OpenOrders(b.Find(id).value.account) >= Count(b, b.Find(id).value.account)
    requires Exact(r, b, b.Find(id).value.account)
    ensures var e, a := Replace(b, id, price, quantity, sequence, now), b.Find(id).value.account;
            Covered(AfterReplace(r, b.Find(id).value, id, e), e.book, a) <==> !RequeueCrosses(b, id, price, quantity)
  {
    hide BookOk, Lookup, Without, Run, Fresh, Withdrawn, Committed, Settled, Amend, RemoveOrder, Insert,
         RequeueCrosses, Replace, RiskState.OpenOrders, RiskState.Working, Count, AfterInsert, Resting, Covered, Exact;
    var o := b.Find(id).value;
    var a := o.account;
    var e := Replace(b, id, price, quantity, sequence, now);
    RefusedReplace(b, id, price, quantity, sequence, now);
    BothSides(r, b, a, o.side);
    if RequeueCrosses(b, id, price, quantity) {
      var k := FindLocates(b, id);
      RemoveHolds(b, id, a);
      WithdrawnEffect(r, o, a, b.instrument.id, o.side);
      CommittedEffect(Withdrawn(r, o), o, a, b.instrument.id, o.side);
      RemoveInstrument(b, o);
      BothSides(AfterReplace(r, o, id, e), e.book, a, o.side);
    } else {
      ReplaceFollows(r, b, id, price, quantity, sequence, now, a);
    }
  }

  /** The working quantity of a taker stays right exactly when it does not also rest on the side
      it takes on: what it takes is deducted from what it has resting. */
  lemma TakerExactly(r: RiskState, b: Book, o: Order)
    requires BookOk(b) && b.instrument.WellFormed() && Fresh(b, o.sequence) && o.remaining <= o.quantity
    requires Insert(b, o).result.reject == Accepted && r.OpenOrders(o.account) >= Count(b, o.account)
             && Exact(r, b, o.account)
    ensures var e := Insert(b, o);
            Exact(AfterInsert(r, b.instrument.id, e.book, e.fills, e.withdrawals, o.id), e.book, o.account)
            <==> !TakesWhereItRests(b, o)
  {
    hide BookOk, Insert, Fresh, Lookup, Held, Remaining, RiskState.Working, RiskState.OpenOrders, Leftover,
         EmptiedOf, RemovedOf, TakenFrom, WithdrawnFrom, FillTotal, AfterInsert, Predict, Admission;
    var e, a := Insert(b, o), o.account;
    InsertFollows(r, b, o, a);
    if TakesWhereItRests(b, o) {
      InsertAccounts(b, o, a);
      InsertWorking(r, b, o, a, b.instrument.id, o.side);
      BothSides(r, b, a, o.side);
      BothSides(AfterInsert(r, b.instrument.id, e.book, e.fills, e.withdrawals, o.id), e.book, a, o.side);
      FillsForeseen(b, o);
    }
  }

  /** Account 7 rests a bid of 5 at 10, all of it working, and 3 are on offer at 11. */
  const TAKER_BOOK := Book(Instrument(1, [65], 1, 1, 1, 1, 100, 2, CancelIncoming),
                           [Order(1, 7, 1, 10, 5, 5, Buy, Limit, Day, 0, 1, false)],
                           [Order(2, 8, 1, 11, 3, 3, Sell, Limit, Day, 0, 2, false)], 1)

  const TAKER_RISK := RiskState(map[7 := Account(UNLIMITED, 1, map[1 := Exposure(0, 5, 0)], 0)], map[])

  /** It buys them. */
  const TAKER_ORDER := Order(3, 7, 1, 11, 3, 3, Buy, Limit, Day, 0, 3, false)

  lemma TakerAdmitted()
    ensures BookOk(TAKER_BOOK) && Fresh(TAKER_BOOK, 3) && TAKER_BOOK.instrument.WellFormed()
    ensures Admission(TAKER_BOOK, TAKER_ORDER) == Accepted
  {
    assert Lookup(TAKER_BOOK.bids, 3) == None && Lookup(TAKER_BOOK.asks, 3) == None;
  }

  lemma TakerPredicted()
    ensures Predict(TAKER_BOOK.instrument, TAKER_BOOK.asks, TAKER_ORDER, 3) == 3
    ensures Remaining(TAKER_BOOK.bids, 7) == 5 && Remaining(TAKER_BOOK.asks, 7) == 0
    ensures TAKER_RISK.Working(7, 1, Buy) == 5 && TAKER_RISK.Working(7, 1, Sell) == 0
  {
    assert TAKER_BOOK.asks[1..] == [] && TAKER_BOOK.bids[1..] == [];
    assert Predict(TAKER_BOOK.instrument, [], TAKER_ORDER, 0) == 0;
    assert Remaining([], 7) == 0;
  }

  /** Afterwards it still rests 5, and the ledger has 2 of them working. */
  lemma TakerUnderstated()
    ensures TAKER_BOOK.instrument.WellFormed()
    ensures var e := Insert(TAKER_BOOK, TAKER_ORDER);
            var r := AfterInsert(TAKER_RISK, 1, e.book, e.fills, e.withdrawals, 3);
            && BookOk(TAKER_BOOK) && Exact(TAKER_RISK, TAKER_BOOK, 7) && TakesWhereItRests(TAKER_BOOK, TAKER_ORDER)
            && r.Working(7, 1, Buy) == 2 && Resting(e.book, 7, Buy) == 5
  {
    hide BookOk, Fresh, Run, Admission, Predict, Remaining, RiskState.Working, Place, FillTotal, AfterInsert, Leftover;
    var b, o := TAKER_BOOK, TAKER_ORDER;
    TakerAdmitted();
    TakerPredicted();
    FillsForeseen(b, o);
    MatchedIsAll(b, o);
    InsertAccounts(b, o, 7);
    InsertWorking(TAKER_RISK, b, o, 7, 1, Buy);
  }

  /** An order that is filled whole has nothing left to rest. */
  lemma MatchedIsAll(b: Book, o: Order)
    requires BookOk(b) && b.instrument.WellFormed() && o.remaining <= o.quantity
             && Insert(b, o).result.reject == Accepted
    requires FillTotal(Insert(b, o).fills) == o.remaining
    ensures !Insert(b, o).result.rested
  {
    hide BookOk, Admission, Place, Run;
    var leftover := Ledger.InsertConserves(b, o);
  }

  lemma SomethingFilled(fills: seq<Fill>)
    requires fills != [] && fills[|fills| - 1].quantity > 0
    ensures FillTotal(fills) > 0
  {
  }
}

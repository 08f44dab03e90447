/** How the venue treats the commands it is sent, in the terms of the commands. */
module Conduct {
  import opened Types
  import opened Commands
  import opened Matching
  import BookInvariant
  import BookSteps
  import Priority
  import FillPrediction
  import Ledger
  import SelfTrade
  import opened JournalRecord
  import opened Venue
  import opened Engine
  import opened Verdicts

  // ----- who may do what

  /** Does this account have this order resting on this instrument? */
  ghost predicate IsOwner(s: State, instrument: nat, id: nat, account: nat) {
    && instrument in s.books
    && var b := s.books[instrument];
       || (exists i :: 0 <= i < |b.bids| && b.bids[i].id == id && b.bids[i].account == account)
       || (exists i :: 0 <= i < |b.asks| && b.asks[i].id == id && b.asks[i].account == account)
  }

  lemma OwnerIsFound(s: State, instrument: nat, id: nat, account: nat)
    requires Orderly(s)
    ensures IsOwner(s, instrument, id, account) <==> Owns(s, instrument, account, id)
  {
    hide BookInvariant.BookOk, BookInvariant.Fresh, Lookup;
    if IsOwner(s, instrument, id, account) {
      var b := s.books[instrument];
      if i :| 0 <= i < |b.bids| && b.bids[i].id == id && b.bids[i].account == account {
        Ledger.FoundHere(b, Buy, i);
      } else {
        var i :| 0 <= i < |b.asks| && b.asks[i].id == id && b.asks[i].account == account;
        Ledger.FoundHere(b, Sell, i);
      }
    } else if Owns(s, instrument, account, id) {
      var k := BookSteps.FindLocates(s.books[instrument], id);
    }
  }

  /** A cancel or an amendment leaves a trace exactly if the order is its own account's. */
  lemma OnlyOwnersAct(r: Run, a: Attempt)
    requires Orderly(r.state) && Defined(r.state) && Sane(a.body)
    ensures a.body.OrderCancelled? ==>
              var c := a.body.cancel; (Live(r, a) != r <==> IsOwner(r.state, c.instrument, c.id, c.account))
    ensures a.body.OrderReplaced? ==>
              var c := a.body.replace; (Live(r, a) != r <==> IsOwner(r.state, c.instrument, c.id, c.account))
  {
    hide Perform, IsOwner, Orderly;
    Numbered(r, a);
    match a.body {
      case OrderCancelled(c) => OwnerIsFound(r.state, c.instrument, c.id, c.account);
      case OrderReplaced(c) => OwnerIsFound(r.state, c.instrument, c.id, c.account);
      case _ =>
    }
  }

  /** And the answer to anyone else is that there is no such order, without a number. */
  lemma StrangersTurnedAway(s: State, cancel: CancelOrder, replace: ReplaceOrder, now: int, recorded: bool)
    requires Orderly(s) && Defined(s)
    ensures !IsOwner(s, cancel.instrument, cancel.id, cancel.account) ==>
              CancelAnswer(s, cancel, recorded) ==
              Sequenced(CancelResult(if cancel.instrument in s.books then UnknownOrder else UnknownInstrument, None), 0)
    ensures IsOwner(s, cancel.instrument, cancel.id, cancel.account) ==>
              var r := CancelAnswer(s, cancel, recorded);
              && r.sequence == s.sequence + 1
              && r.result == if recorded then CancelResult(Accepted, s.books[cancel.instrument].Find(cancel.id))
                             else CancelResult(Halted, None)
    ensures !IsOwner(s, replace.instrument, replace.id, replace.account) ==>
              var (r, fills) := ReplaceAnswer(s, replace, now, recorded);
              && r.sequence == 0 && fills == []
              && r.result.reject == (if replace.instrument in s.books then UnknownOrder else UnknownInstrument)
    ensures IsOwner(s, replace.instrument, replace.id, replace.account) ==>
              var (r, fills) := ReplaceAnswer(s, replace, now, recorded);
              && r.sequence == s.sequence + 1 && r.result.reject != UnknownOrder
              && (!recorded ==> r.result.reject == Halted && fills == [])
  {
    hide Insert, RemoveOrder, Lookup, Amend, IsOwner, Orderly;
    OwnerIsFound(s, cancel.instrument, cancel.id, cancel.account);
    OwnerIsFound(s, replace.instrument, replace.id, replace.account);
    if IsOwner(s, replace.instrument, replace.id, replace.account) {
      KnownToTheBook(s.books[replace.instrument], replace.id, replace.newPrice, replace.newQuantity, s.sequence + 1,
                     now);
    }
  }

  lemma KnownToTheBook(b: Book, id: nat, price: int, quantity: nat, sequence: nat, now: int)
    requires b.instrument.WellFormed() && b.Find(id).Some?
    ensures Replace(b, id, price, quantity, sequence, now).result.reject != UnknownOrder
  {
    hide Matching.Run, RemoveOrder, Lookup, Amend;
  }

  /** A halted venue takes no new order, and leaves every other command as open as before. */
  lemma HaltStopsNewOrdersOnly(r: Run, a: Attempt)
    requires Defined(r.state) && Sane(a.body)
    ensures a.body.NewOrderEntered? ==> Live(r, a.(admitted := false)) == r
    ensures !a.body.NewOrderEntered? ==> Live(r, a.(admitted := false)) == Live(r, a.(admitted := true))
  {
    hide Perform, Passes;
  }

  // ----- numbering and recording

  /** A command that is not turned away takes the next number and the next place in the journal, and
      has an effect only if it is recorded there. */
  lemma Numbered(r: Run, a: Attempt)
    requires Defined(r.state) && Sane(a.body)
    ensures TurnedAway(r.state, a) ==> Live(r, a) == r
    ensures !TurnedAway(r.state, a) ==>
              var t := Live(r, a);
              && t.state.sequence == r.state.sequence + 1
              && (r.healthy && a.stored ==>
                    t.healthy && t.journal == r.journal + [Record(r.state.sequence + 1, a.now, a.body)])
              && (!(r.healthy && a.stored) ==>
                    !t.healthy && t.journal == r.journal && t.state.books == r.state.books
                    && t.state.symbols == r.state.symbols)
  {
    hide Perform, Passes;
    if Passes(r.state, a.body) {
      PerformDefined(r.state, a.body, a.now);
    }
  }

  /** The number a command takes, and zero if it takes none. */
  function Taken(r: Run, a: Attempt): nat
    requires Defined(r.state) && Sane(a.body)
  {
    if Live(r, a).state.sequence == r.state.sequence then 0 else Live(r, a).state.sequence
  }

  lemma TakenAs(r: Run, a: Attempt)
    requires Defined(r.state) && Sane(a.body)
    ensures Taken(r, a) == if TurnedAway(r.state, a) then 0 else r.state.sequence + 1
  {
    hide Live, TurnedAway;
    Numbered(r, a);
  }

  /** The number in an answer is the number the command took. */
  lemma AnswersCarryTheNumber(r: Run, a: Attempt, verdict: RejectReason)
    requires Defined(r.state) && Sane(a.body)
    ensures a.body.OrderCancelled? ==>
              CancelAnswer(r.state, a.body.cancel, r.healthy && a.stored).sequence == Taken(r, a)
    ensures a.body.OrderReplaced? ==>
              ReplaceAnswer(r.state, a.body.replace, a.now, r.healthy && a.stored).0.sequence == Taken(r, a)
    ensures a.body.NewOrderEntered? && a.admitted == (verdict == Accepted) ==>
              SubmitAnswer(r.state, a.body.order, a.now, verdict, r.healthy && a.stored).0.sequence == Taken(r, a)
  {
    hide Taken, Replace, Submit, Cancel, Lookup;
    TakenAs(r, a);
  }

  /** A command touches the book of its own instrument and no other. */
  lemma OthersUntouched(r: Run, a: Attempt, k: nat)
    requires Orderly(r.state) && Defined(r.state) && Sane(a.body) && k in r.state.books
    requires a.body.InstrumentDefined? || k != Target(a.body)
    ensures k in Live(r, a).state.books && Live(r, a).state.books[k] == r.state.books[k]
  {
    hide BookInvariant.BookOk, BookInvariant.Fresh, Submit, Cancel, Replace;
  }

  /** The answer to a new order that does not get to the book: whatever stops it first, with a number
      only if it was the journal. */
  lemma GatesAnswered(s: State, c: NewOrder, now: int, verdict: RejectReason, recorded: bool)
    requires Defined(s)
    ensures var (answer, fills) := SubmitAnswer(s, c, now, verdict, recorded);
            var stopped := c.instrument !in s.books || c.account == 0 || verdict != Accepted || !recorded;
            && (stopped ==> fills == [] && answer.result.filled == 0 && answer.result.stpCancelled == 0
                            && !answer.result.rested)
            && (c.instrument !in s.books ==> answer.result.reject == UnknownInstrument && answer.sequence == 0)
            && (c.instrument in s.books && c.account == 0 ==>
                  answer.result.reject == UnknownOrder && answer.sequence == 0)
            && (c.instrument in s.books && c.account != 0 && verdict != Accepted ==>
                  answer.result.reject == verdict && answer.sequence == 0)
            && (c.instrument in s.books && c.account != 0 && verdict == Accepted && !recorded ==>
                  answer.result.reject == Halted && answer.sequence == s.sequence + 1)
  {
    hide Submit;
  }

  // ----- what becomes of a new order

  /** Is anything on the other side of the book within the limit of this order? */
  ghost predicate Meets(b: Book, c: NewOrder) {
    if c.side.Buy? then exists i :: 0 <= i < |b.asks| && b.asks[i].price <= c.price
    else exists i :: 0 <= i < |b.bids| && b.bids[i].price >= c.price
  }

  /** The answer to a new order that got past the gates and was recorded. */
  lemma NewOrderAnswered(s: State, c: NewOrder, now: int)
    requires Orderly(s) && Defined(s) && c.instrument in s.books && ValidId(c.account)
    ensures var b := s.books[c.instrument];
            var (answer, fills) := SubmitAnswer(s, c, now, Accepted, true);
            var reject := answer.result.reject;
            && answer.sequence == s.sequence + 1
            && (reject == InvalidQuantity <==> !InLots(b.instrument, c.quantity))
            && (reject == InvalidPrice <==>
                  InLots(b.instrument, c.quantity) && c.kind.Limit? && !OnGrid(b.instrument, c.price))
            && (reject == DuplicateOrderId <==>
                  InLots(b.instrument, c.quantity) && (c.kind.Limit? ==> OnGrid(b.instrument, c.price))
                  && OnBook(b, c.id))
            && (reject == PostOnlyWouldCross <==>
                  InLots(b.instrument, c.quantity) && (c.kind.Limit? ==> OnGrid(b.instrument, c.price))
                  && !OnBook(b, c.id) && c.postOnly && (c.kind.Market? || Meets(b, c)))
            && (reject == FillOrKillUnfillable ==> c.tif.FillOrKill?)
            && (reject == Accepted && c.tif.FillOrKill? ==> answer.result.filled == c.quantity)
            && reject in {InvalidQuantity, InvalidPrice, DuplicateOrderId, PostOnlyWouldCross, FillOrKillUnfillable,
                          Accepted}
            && (reject != Accepted ==>
                  fills == [] && Perform(s, NewOrderEntered(c), now) == s.(sequence := s.sequence + 1))
  {
    hide BookInvariant.BookOk, Insert, BookInvariant.Fresh, OnBook, InLots, OnGrid, Reached, Meets;
    OrderlyAt(s, c.instrument);
    var b, o := s.books[c.instrument], OrderOf(c, s.sequence + 1, now);
    assert o.(remaining := o.quantity) == o;
    AnsweredExactly(b, o);
    MeetsIsReached(b, c, o);
    if o.tif.FillOrKill? {
      FillPrediction.FillOrKillIsAllOrNothing(b, o);
    }
    UnchangedIsSame(s, c.instrument);
  }

  lemma MeetsIsReached(b: Book, c: NewOrder, o: Order)
    requires o.side == c.side && o.kind == c.kind && o.price == c.price
    ensures c.kind.Market? || (Meets(b, c) <==> Reached(b, o))
  {
    if c.kind.Limit? && c.side.Buy? {
      assert forall i :: 0 <= i < |b.asks| ==> (Within(o, b.asks[i].price) <==> b.asks[i].price <= c.price);
      assert b.Queue(o.side.Opposite()) == b.asks;
    } else if c.kind.Limit? {
      assert forall i :: 0 <= i < |b.bids| ==> (Within(o, b.bids[i].price) <==> b.bids[i].price >= c.price);
      assert b.Queue(o.side.Opposite()) == b.bids;
    }
  }

  lemma UnchangedIsSame(s: State, k: nat)
    requires k in s.books
    ensures s.books[k := s.books[k]] == s.books
  {
  }

  /** An accepted order is on the book afterwards as it was sent, numbered and timed by the venue; or
      it is not there at all, and never if it was to trade at once or not at all. */
  lemma EntersAsSent(s: State, c: NewOrder, now: int)
    requires Orderly(s) && Defined(s) && c.instrument in s.books && ValidId(c.account)
    requires SubmitAnswer(s, c, now, Accepted, true).0.result.reject == Accepted
    ensures var (answer, fills) := SubmitAnswer(s, c, now, Accepted, true);
            var found := Perform(s, NewOrderEntered(c), now).books[c.instrument].Find(c.id);
            && answer.result.filled == FillTotal(fills) <= c.quantity
            && (found.Some? <==> answer.result.rested)
            && (found.Some? ==>
                  && c.kind.Limit? && (c.tif.Day? || c.tif.GoodTilCancelled?)
                  && var x := found.value;
                     && x.id == c.id && x.account == c.account && x.instrument == c.instrument && x.side == c.side
                     && x.kind == c.kind && x.tif == c.tif && x.price == c.price && x.postOnly == c.postOnly
                     && x.sequence == s.sequence + 1 && x.acceptedAt == now
                     && x.remaining == c.quantity - FillTotal(fills) - answer.result.stpCancelled
                     && x.quantity == c.quantity - answer.result.stpCancelled)
            && (found.None? && c.kind.Limit? && (c.tif.Day? || c.tif.GoodTilCancelled?) ==>
                  c.quantity == FillTotal(fills) + answer.result.stpCancelled)
            && (c.postOnly ==> fills == [])
  {
    hide BookInvariant.BookOk, Insert, BookInvariant.Fresh, FillTotal, Lookup;
    OrderlyAt(s, c.instrument);
    var b, o := s.books[c.instrument], OrderOf(c, s.sequence + 1, now);
    assert o.(remaining := o.quantity) == o;
    RestsAsSent(b, o);
    var left := Ledger.InsertConserves(b, o);
    if c.postOnly {
      PostOnlyRestsWhole(b, o);
    }
  }

  /** Every trade of a new order is its own account's, on its own side and within its own limit. */
  lemma TradesAsSent(s: State, c: NewOrder, now: int)
    requires Orderly(s) && Defined(s) && c.instrument in s.books && ValidId(c.account)
    ensures var fills := SubmitAnswer(s, c, now, Accepted, true).1;
            forall i :: 0 <= i < |fills| ==>
              && fills[i].aggressorOrder == c.id && fills[i].aggressorAccount == c.account
              && fills[i].aggressorSide == c.side && fills[i].instrument == c.instrument && fills[i].timestamp == now
              && (c.kind.Market? || if c.side.Buy? then fills[i].price <= c.price else fills[i].price >= c.price)
  {
    hide BookInvariant.BookOk, Insert, BookInvariant.Fresh, Priority.InQueueOrder;
    OrderlyAt(s, c.instrument);
    var b, o := s.books[c.instrument], OrderOf(c, s.sequence + 1, now);
    assert o.(remaining := o.quantity) == o;
    var at := Priority.FillsFromTheFront(b, o);
    SelfTrade.InsertByPolicy(b, o);
    EachAgainst(Insert(b, o).fills, o, b.Queue(o.side.Opposite()), at,
                |b.Queue(o.side.Opposite())| - |Insert(b, o).book.Queue(o.side.Opposite())|);
  }

  lemma EachAgainst(fs: seq<Fill>, o: Order, q: seq<Order>, at: seq<nat>, gone: nat)
    requires Priority.InQueueOrder(fs, o, q, at, gone)
    ensures forall i :: 0 <= i < |fs| ==> i < |at| && at[i] < |q| && Priority.Against(fs[i], o, q[at[i]])
  {
  }

  // ----- listing

  /** An instrument is listed exactly if it has an identifier and a symbol and neither is taken; its
      book starts empty. */
  lemma ListedWhenFree(r: Run, a: Attempt)
    requires Defined(r.state) && Sane(a.body) && a.body.InstrumentDefined?
    ensures var i := a.body.instrument;
            && (Live(r, a) != r <==>
                  i.id != 0 && i.symbol != [] && i.id !in r.state.books && i.symbol !in r.state.symbols)
            && (Live(r, a) != r && r.healthy && a.stored ==>
                  Live(r, a).state == State(r.state.sequence + 1, r.state.books[i.id := Book(i, [], [], 1)],
                                            r.state.symbols[i.symbol := i.id]))
  {
    Numbered(r, a);
  }

  /** Books and symbols name each other. */
  ghost predicate Directory(s: State) {
    && (forall k :: k in s.books ==>
          k != 0 && s.books[k].instrument.id == k && s.books[k].instrument.symbol != []
          && s.books[k].instrument.symbol in s.symbols && s.symbols[s.books[k].instrument.symbol] == k)
    && (forall y :: y in s.symbols ==> s.symbols[y] in s.books && s.books[s.symbols[y]].instrument.symbol == y)
  }

  /** In every reachable venue each symbol stands for one instrument and each instrument has one. */
  lemma {:induction false} DirectoryKept(attempts: seq<Attempt>)
    requires AllSane(attempts)
    ensures Directory(LiveAll(attempts).state)
  {
    hide Live, Directory;
    if attempts == [] {
      EmptyDirectory();
    } else {
      var before, a := attempts[..|attempts| - 1], attempts[|attempts| - 1];
      DirectoryKept(before);
      LiveOrderly(before);
      StepKeepsDirectory(LiveAll(before), a);
    }
  }

  lemma EmptyDirectory()
    ensures Directory(NOTHING)
  {
  }

  lemma StepKeepsDirectory(r: Run, a: Attempt)
    requires Orderly(r.state) && Defined(r.state) && Sane(a.body) && Directory(r.state)
    ensures Directory(Live(r, a).state)
  {
    hide Perform, BookInvariant.BookOk, BookInvariant.Fresh;
    Numbered(r, a);
    if !TurnedAway(r.state, a) && r.healthy && a.stored {
      if a.body.InstrumentDefined? {
        ListedWhenFree(r, a);
      } else {
        PerformOne(r.state, a.body, a.now);
        SymbolsStay(r.state, a.body, a.now);
      }
    }
  }

  lemma SymbolsStay(s: State, b: Body, now: int)
    requires Defined(s) && Sane(b) && Passes(s, b) && !b.InstrumentDefined?
    ensures Perform(s, b, now).symbols == s.symbols
  {
    hide Submit, Cancel, Replace;
  }
}

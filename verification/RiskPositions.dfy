/** Positions: what each account holds is what it bought and sold. */
module RiskPositions {
  import opened Types
  import opened Matching
  import opened BookInvariant
  import opened BookSteps
  import Priority
  import Ledger
  import opened Amendments
  import opened Risk
  import opened RiskSettle
  import opened RiskLedger

  predicate AccountsIn(q: seq<Order>, accounts: set<nat>) {
    forall i :: 0 <= i < |q| ==> q[i].account in accounts
  }

  predicate BookAccountsIn(b: Book, accounts: set<nat>) {
    AccountsIn(b.bids, accounts) && AccountsIn(b.asks, accounts)
  }

  lemma InsertAccountsIn(b: Book, o: Order, accounts: set<nat>)
    requires BookOk(b) && b.instrument.WellFormed() && o.remaining <= o.quantity
    requires BookAccountsIn(b, accounts) && o.account in accounts
    ensures BookAccountsIn(Insert(b, o).book, accounts)
    ensures PartiesKnown(Insert(b, o).fills, accounts)
    ensures Insert(b, o).result.reject == Accepted ==>
              WithdrawnOn(Insert(b, o).withdrawals, o.side.Opposite(), b.instrument.id)
  {
    hide BookOk, Run, Place, Admission, Priority.InQueueOrder, AccountsIn, PartiesKnown, OfOne, WithdrawnOn, Held,
         Remaining;
    var q := b.Queue(o.side.Opposite());
    QueueLive(b, o.side.Opposite());
    NobodyTraded(accounts);
    if Admission(b, o) == Accepted {
      var r := Run(b.instrument, Start(b, o));
      MatchedIncoming(b, o);
      InsertAccounts(b, o, 0);
      MatchedAccountsIn(b, o, accounts);
      PlacedAccountsIn(b.Queue(o.side), r.incoming, accounts);
    }
  }

  lemma NobodyTraded(accounts: set<nat>)
    ensures PartiesKnown([], accounts)
  {
  }

  lemma MatchedAccountsIn(b: Book, o: Order, accounts: set<nat>)
    requires BookOk(b) && AccountsIn(b.Queue(o.side.Opposite()), accounts) && o.account in accounts
    ensures var r := Run(b.instrument, Start(b, o)); AccountsIn(r.queue, accounts) && PartiesKnown(r.fills, accounts)
  {
    hide BookOk, Run, Priority.InQueueOrder, PartiesKnown;
    var q, r := b.Queue(o.side.Opposite()), Run(b.instrument, Start(b, o));
    QueueLive(b, o.side.Opposite());
    RunResidue(b.instrument, Start(b, o));
    forall i | 0 <= i < |r.queue| ensures r.queue[i].account in accounts {
      ResidueAt(r.queue, q, |q| - |r.queue|, i);
    }
    var at := Priority.RunInQueueOrder(b.instrument, Start(b, o));
    assert r.fills[0..] == r.fills;
    FillParties(r.fills, o, q, at, |q| - |r.queue|, accounts);
  }

  lemma PlacedAccountsIn(q: seq<Order>, o: Order, accounts: set<nat>)
    requires AccountsIn(q, accounts) && o.account in accounts
    ensures AccountsIn(Place(q, o), accounts)
  {
    hide Place;
    var k := PlaceRank(q, o);
    SplicedElements(q, o, k, Place(q, o));
  }

  lemma FillParties(fs: seq<Fill>, o: Order, q: seq<Order>, at: seq<nat>, gone: nat, accounts: set<nat>)
    requires Priority.InQueueOrder(fs, o, q, at, gone) && AccountsIn(q, accounts) && o.account in accounts
    ensures PartiesKnown(fs, accounts)
  {
    forall j | 0 <= j < |fs| ensures fs[j].aggressorAccount in accounts && fs[j].restingAccount in accounts {
      assert Priority.Against(fs[j], o, q[at[j]]);
    }
  }

  lemma RemoveAccountsIn(b: Book, id: nat, accounts: set<nat>)
    requires BookOk(b) && b.Find(id).Some? && BookAccountsIn(b, accounts)
    ensures BookAccountsIn(RemoveOrder(b, b.Find(id).value), accounts) && b.Find(id).value.account in accounts
  {
    hide BookOk, Lookup, Without;
    var o := b.Find(id).value;
    var k := FindLocates(b, id);
    BookOkBySideUnique(b, o.side);
    WithoutAt(b.Queue(o.side), k);
  }

  /** After an insert: positions moved by the fills, and still everyone known. */
  lemma InsertPositions(r: RiskState, b: Book, o: Order, a: nat, i: nat)
    requires BookOk(b) && b.instrument.WellFormed() && Fresh(b, o.sequence) && o.remaining <= o.quantity
    requires Insert(b, o).result.reject == Accepted && BookAccountsIn(b, r.accounts.Keys) && o.account in r.accounts
    ensures var e := Insert(b, o);
            var r' := AfterInsert(r, b.instrument.id, e.book, e.fills, e.withdrawals, o.id);
            && r'.Exposed(a, i).net == Moved(r.Exposed(a, i).net, SignedFills(e.fills, a, i))
            && r'.accounts.Keys == r.accounts.Keys && BookAccountsIn(e.book, r.accounts.Keys)
            && PartiesKnown(e.fills, r.accounts.Keys)
  {
    hide BookOk, Insert, Fresh, Lookup, Settled, Committed, RiskState.Exposed, BookAccountsIn, PartiesKnown,
         SignedFills, Leftover, EmptiedOf, RemovedOf, TakenFrom, WithdrawnFrom, FillTotal, RiskState.Working,
         RiskState.OpenOrders, Moved;
    var e, id := Insert(b, o), b.instrument.id;
    InsertAccountsIn(b, o, r.accounts.Keys);
    InsertFinds(b, o);
    InsertWorking(r, b, o, a, i, Buy);
    SettledNet(r, e.fills, e.withdrawals, o.side.Opposite(), id, a, i);
    if e.result.rested {
      CommittedEffect(Settled(r, id, e.fills, e.withdrawals), e.book.Find(o.id).value, a, i, Buy);
    }
  }

  lemma SubmitPositions(r: RiskState, b: Book, o: Order, a: nat, i: nat)
    requires BookOk(b) && b.instrument.WellFormed() && Fresh(b, o.sequence) && o.remaining == o.quantity
    requires BookAccountsIn(b, r.accounts.Keys) && o.account in r.accounts
    ensures var e := Submit(b, o);
            var r' := AfterSubmit(r, b.instrument.id, e, o.id);
            && r'.Exposed(a, i).net == Moved(r.Exposed(a, i).net, SignedFills(e.fills, a, i))
            && r'.accounts.Keys == r.accounts.Keys && BookAccountsIn(e.book, r.accounts.Keys)
            && PartiesKnown(e.fills, r.accounts.Keys)
  {
    hide BookOk, Insert, Fresh, Lookup, Settled, Committed, RiskState.Exposed, BookAccountsIn, PartiesKnown, Moved;
    NotMoved(r.Exposed(a, i).net);
    assert o.(remaining := o.quantity) == o;
    InsertKeepsBook(b, o);
    NobodyTraded(r.accounts.Keys);
    if Insert(b, o).result.reject == Accepted {
      InsertPositions(r, b, o, a, i);
      InsertFinds(b, o);
    }
  }

  lemma WithdrawnThenPut(r: RiskState, o: Order, x: Order, a: nat, i: nat)
    requires o.account in r.accounts && x.account == o.account
    ensures var r' := Committed(Withdrawn(r, o), x);
            r'.Exposed(a, i).net == r.Exposed(a, i).net && r'.accounts.Keys == r.accounts.Keys
  {
    hide Withdrawn, Committed, RiskState.Exposed, RiskState.Working, RiskState.OpenOrders;
    WithdrawnEffect(r, o, a, i, Buy);
    CommittedEffect(Withdrawn(r, o), x, a, i, Buy);
    assert r.accounts.Keys + {x.account} == r.accounts.Keys;
  }

  lemma NoPosition(a: nat, i: nat)
    ensures SignedFills([], a, i) == 0
  {
  }

  /** Positions moved by the fills, accounts as they were, and everyone in the book and in the fills known. */
  ghost predicate Positioned(r: RiskState, r': RiskState, book: Book, fills: seq<Fill>, a: nat, i: nat) {
    && r'.Exposed(a, i).net == Moved(r.Exposed(a, i).net, SignedFills(fills, a, i))
    && r'.accounts.Keys == r.accounts.Keys && BookAccountsIn(book, r.accounts.Keys)
    && PartiesKnown(fills, r.accounts.Keys)
  }

  lemma NobodyMoved(r: RiskState, r': RiskState, book: Book, a: nat, i: nat)
    requires r'.Exposed(a, i).net == r.Exposed(a, i).net && r'.accounts.Keys == r.accounts.Keys
             && BookAccountsIn(book, r.accounts.Keys)
    ensures Positioned(r, r', book, [], a, i)
  {
    hide RiskState.Exposed, BookAccountsIn, PartiesKnown, SignedFills, Moved;
    NotMoved(r.Exposed(a, i).net);
    NoPosition(a, i);
    NobodyTraded(r.accounts.Keys);
  }

  lemma ReplacePositions(r: RiskState, b: Book, id: nat, price: int, quantity: nat, sequence: nat, now: int, a: nat,
                         i: nat)
    requires BookOk(b) && b.instrument.WellFormed() && Fresh(b, sequence) && b.Find(id).Some?
             && BookAccountsIn(b, r.accounts.Keys)
    ensures var e := Replace(b, id, price, quantity, sequence, now);
            var r' := AfterReplace(r, b.Find(id).value, id, e);
            && r'.Exposed(a, i).net == Moved(r.Exposed(a, i).net, SignedFills(e.fills, a, i))
            && r'.accounts.Keys == r.accounts.Keys && BookAccountsIn(e.book, r.accounts.Keys)
            && PartiesKnown(e.fills, r.accounts.Keys)
  {
    hide RiskState.Exposed, BookAccountsIn, PartiesKnown, SignedFills, Moved, Replace, AfterReplace;
    ReplacePositioned(r, b, id, price, quantity, sequence, now, a, i);
  }

  lemma ReplacePositioned(r: RiskState, b: Book, id: nat, price: int, quantity: nat, sequence: nat, now: int, a: nat,
                          i: nat)
    requires BookOk(b) && b.instrument.WellFormed() && Fresh(b, sequence) && b.Find(id).Some?
             && BookAccountsIn(b, r.accounts.Keys)
    ensures var e := Replace(b, id, price, quantity, sequence, now);
            Positioned(r, AfterReplace(r, b.Find(id).value, id, e), e.book, e.fills, a, i)
  {
    hide BookOk, Lookup, Without, Run, Fresh, Withdrawn, Committed, Settled, Amend, RemoveOrder, Insert,
         RequeueCrosses, BookAccountsIn, Instrument.IsValidPrice, Instrument.IsValidQuantity, AfterInsert, Positioned;
    var o := b.Find(id).value;
    var e := Replace(b, id, price, quantity, sequence, now);
    RefusedReplace(b, id, price, quantity, sequence, now);
    if e.result.reject != Accepted {
      RefusedPositions(r, b, id, e.book, a, i);
    } else if Requeues(b, id, price, quantity) {
      RequeuePositions(r, b, id, price, quantity, sequence, now, a, i);
    } else if quantity <= o.Filled() {
      RemovePositions(r, b, id, a, i);
    } else {
      AmendPositions(r, b, id, quantity, a, i);
    }
  }

  /** Refused: what was withdrawn is put back. */
  lemma RefusedPositions(r: RiskState, b: Book, id: nat, book: Book, a: nat, i: nat)
    requires BookOk(b) && b.Find(id).Some? && BookAccountsIn(b, r.accounts.Keys)
    requires book == b || book == RemoveOrder(b, b.Find(id).value)
    ensures var o := b.Find(id).value; Positioned(r, Committed(Withdrawn(r, o), o), book, [], a, i)
  {
    hide BookOk, Lookup, Withdrawn, Committed, RemoveOrder, RiskState.Exposed, BookAccountsIn, Positioned;
    var o := b.Find(id).value;
    FoundAccount(b, id, r.accounts.Keys);
    RemoveAccountsIn(b, id, r.accounts.Keys);
    WithdrawnThenPut(r, o, o, a, i);
    NobodyMoved(r, Committed(Withdrawn(r, o), o), book, a, i);
  }

  lemma FoundAccount(b: Book, id: nat, accounts: set<nat>)
    requires BookOk(b) && b.Find(id).Some? && BookAccountsIn(b, accounts)
    ensures b.Find(id).value.account in accounts
  {
    hide BookOk, Lookup;
    var k := FindLocates(b, id);
  }

  /** Cancelled by a new size that is already filled. */
  lemma RemovePositions(r: RiskState, b: Book, id: nat, a: nat, i: nat)
    requires BookOk(b) && b.Find(id).Some? && BookAccountsIn(b, r.accounts.Keys)
    ensures var o := b.Find(id).value; var book := RemoveOrder(b, o);
            Positioned(r, AfterInsert(Withdrawn(r, o), o.instrument, book, [], [], id), book, [], a, i)
  {
    hide BookOk, Lookup, Withdrawn, Committed, RemoveOrder, RiskState.Exposed, BookAccountsIn, Positioned, AfterInsert;
    var o := b.Find(id).value;
    RemoveAccountsIn(b, id, r.accounts.Keys);
    WithdrawnEffect(r, o, a, i, Buy);
    RemovedIsGone(b, id);
    InsertNothing(Withdrawn(r, o), o.instrument, RemoveOrder(b, o), id);
    NobodyMoved(r, Withdrawn(r, o), RemoveOrder(b, o), a, i);
  }

  /** Reduced where it stands. */
  lemma AmendPositions(r: RiskState, b: Book, id: nat, quantity: nat, a: nat, i: nat)
    requires BookOk(b) && b.Find(id).Some? && BookAccountsIn(b, r.accounts.Keys)
    requires b.Find(id).value.Filled() < quantity
    ensures var o := b.Find(id).value;
            var x := o.(quantity := quantity, remaining := quantity - o.Filled());
            var book := b.WithQueue(o.side, Amend(b.Queue(o.side), x));
            Positioned(r, AfterInsert(Withdrawn(r, o), o.instrument, book, [], [], id), book, [], a, i)
  {
    hide BookOk, Lookup, Withdrawn, Committed, Amend, RiskState.Exposed, BookAccountsIn, Positioned, AfterInsert;
    var o := b.Find(id).value;
    var x := o.(quantity := quantity, remaining := quantity - o.Filled());
    var book := b.WithQueue(o.side, Amend(b.Queue(o.side), x));
    var k := FindLocates(b, id);
    FoundAccount(b, id, r.accounts.Keys);
    Ledger.AmendedIsFound(b, id, x);
    InsertNothing(Withdrawn(r, o), o.instrument, book, id);
    WithdrawnThenPut(r, o, x, a, i);
    AmendAccountsIn(b, id, x, r.accounts.Keys);
    NobodyMoved(r, Committed(Withdrawn(r, o), x), book, a, i);
  }

  lemma RequeuePositions(r: RiskState, b: Book, id: nat, price: int, quantity: nat, sequence: nat, now: int, a: nat,
                         i: nat)
    requires BookOk(b) && b.instrument.WellFormed() && Fresh(b, sequence) && b.Find(id).Some?
             && BookAccountsIn(b, r.accounts.Keys)
    requires Requeues(b, id, price, quantity) && !RequeueCrosses(b, id, price, quantity)
    ensures var o := b.Find(id).value;
            var e := Insert(RemoveOrder(b, o), Amended(o, price, quantity, sequence, now));
            var r' := AfterInsert(Withdrawn(r, o), o.instrument, e.book, e.fills, e.withdrawals, id);
            Positioned(r, r', e.book, e.fills, a, i)
  {
    hide BookOk, Lookup, Without, Run, Fresh, Withdrawn, Committed, Settled, RemoveOrder, Insert, RequeueCrosses,
         RiskState.Exposed, BookAccountsIn, PartiesKnown, Instrument.IsValidPrice, Instrument.IsValidQuantity,
         AfterInsert, SignedFills, Moved;
    var o := b.Find(id).value;
    var k := FindLocates(b, id);
    RemoveAccountsIn(b, id, r.accounts.Keys);
    WithdrawnEffect(r, o, a, i, Buy);
    RequeueAccepted(b, id, price, quantity, sequence, now);
    RemoveKeepsBook(b, id);
    RemoveInstrument(b, o);
    InsertPositions(Withdrawn(r, o), RemoveOrder(b, o), Amended(o, price, quantity, sequence, now), a, i);
  }

  lemma InsertNothing(r: RiskState, instrument: nat, book: Book, id: nat)
    ensures AfterInsert(r, instrument, book, [], [], id) == if book.Find(id).Some?
            then Committed(r, book.Find(id).value) else r
  {
    SettledNothing(r, instrument);
  }

  lemma AmendAccountsIn(b: Book, id: nat, x: Order, accounts: set<nat>)
    requires BookOk(b) && b.Find(id).Some? && BookAccountsIn(b, accounts)
    requires x == b.Find(id).value.(quantity := x.quantity, remaining := x.remaining)
    ensures BookAccountsIn(b.WithQueue(x.side, Amend(b.Queue(x.side), x)), accounts)
  {
    hide BookOk, Lookup, Amend;
    var k := FindLocates(b, id);
    BookOkBySideUnique(b, x.side);
    EditAtUnique(b.Queue(x.side), x, k);
  }
}

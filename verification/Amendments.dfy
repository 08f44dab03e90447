/** Replaces that are refused: when the book is left alone, and when it is not. */
module Amendments {
  import opened Types
  import opened Matching
  import opened BookInvariant
  import opened BookSteps

  /** The replace goes by way of the back of the queue: on the grid, more than has traded, and
      not a reduction in place. */
  predicate Requeues(b: Book, id: nat, price: int, quantity: nat)
    requires b.instrument.WellFormed()
  {
    && b.Find(id).Some? && b.instrument.IsValidPrice(price) && b.instrument.IsValidQuantity(quantity)
    && var o := b.Find(id).value; quantity > o.Filled() && !(price == o.price && quantity < o.quantity)
  }

  /** The new terms of a post-only order would take liquidity. */
  predicate RequeueCrosses(b: Book, id: nat, price: int, quantity: nat)
    requires b.instrument.WellFormed()
  {
    && Requeues(b, id, price, quantity)
    && var o := b.Find(id).value; o.postOnly && WouldCross(b, o.(price := price))
  }

  /** A re-queued order can only be turned away for being post-only and crossing. */
  lemma RequeueAdmission(b: Book, id: nat, price: int, quantity: nat, sequence: nat, now: int)
    requires BookOk(b) && b.instrument.WellFormed() && Requeues(b, id, price, quantity)
    ensures var o := b.Find(id).value;
            Admission(RemoveOrder(b, o), Amended(o, price, quantity, sequence, now)) ==
              if RequeueCrosses(b, id, price, quantity) then PostOnlyWouldCross else Accepted
  {
    hide BookOk, Lookup, Without, Run, Instrument.IsValidPrice, Instrument.IsValidQuantity;
    var o := b.Find(id).value;
    var k := FindLocates(b, id);
    RemovedIsGone(b, id);
    var a, x := RemoveOrder(b, o), Amended(o, price, quantity, sequence, now);
    assert a.Queue(o.side.Opposite()) == b.Queue(o.side.Opposite());
  }

  /** A refused replace leaves the book as it was, except in one case: a post-only order whose
      new terms would cross is taken off the book and not put back. */
  lemma RefusedReplace(b: Book, id: nat, price: int, quantity: nat, sequence: nat, now: int)
    requires BookOk(b) && b.instrument.WellFormed()
    ensures var e := Replace(b, id, price, quantity, sequence, now);
            && (e.result.reject == PostOnlyWouldCross <==> RequeueCrosses(b, id, price, quantity))
            && (e.result.reject != Accepted ==> (e.book == b <==> !RequeueCrosses(b, id, price, quantity)))
            && (e.result.reject == PostOnlyWouldCross ==>
                e.book == RemoveOrder(b, b.Find(id).value) && e.book.Find(id).None?)
            && (e.result.reject != Accepted ==> e.fills == [] && e.withdrawals == [])
  {
    hide BookOk, Lookup, Without, Run, Instrument.IsValidPrice, Instrument.IsValidQuantity, Admission, WouldCross,
         Amend;
    if Requeues(b, id, price, quantity) {
      RequeueAdmission(b, id, price, quantity, sequence, now);
      RemovedIsGone(b, id);
    }
  }

  /** Such an order: a post-only bid at 10, moved to the best ask at 11, is gone. */
  lemma RefusedButGone()
    ensures var inst := Instrument(1, [65], 1, 1, 1, 1, 100, 2, CancelIncoming);
            var bid := Order(1, 7, 1, 10, 5, 5, Buy, Limit, Day, 0, 1, true);
            var ask := Order(2, 8, 1, 11, 5, 5, Sell, Limit, Day, 0, 2, false);
            var b := Book(inst, [bid], [ask], 1);
            var e := Replace(b, 1, 11, 5, 3, 0);
            BookOk(b) && e.result.reject == PostOnlyWouldCross && e.book == b.(bids := [])
  {
    var inst := Instrument(1, [65], 1, 1, 1, 1, 100, 2, CancelIncoming);
    var bid := Order(1, 7, 1, 10, 5, 5, Buy, Limit, Day, 0, 1, true);
    var ask := Order(2, 8, 1, 11, 5, 5, Sell, Limit, Day, 0, 2, false);
    var b := Book(inst, [bid], [ask], 1);
    assert Lookup(b.bids, 1) == Some(bid) && Without(b.bids, 1) == [];
    assert Requeues(b, 1, 11, 5) && RequeueCrosses(b, 1, 11, 5);
    RefusedReplace(b, 1, 11, 5, 3, 0);
  }
}

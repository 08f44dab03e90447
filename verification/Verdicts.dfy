/** What the book answers, in the terms of the order itself. */
module Verdicts {
  import opened Arithmetic
  import opened Types
  import opened Matching
  import opened BookInvariant
  import opened BookSteps
  import opened BookRuns
  import opened Conservation
  import opened FillPrediction
  import opened Ledger
  import opened Amendments

  predicate OnGrid(inst: Instrument, price: int)
    requires inst.WellFormed()
  {
    price % inst.tickSize == 0 && inst.minPrice <= price <= inst.maxPrice
  }

  predicate InLots(inst: Instrument, quantity: nat)
    requires inst.WellFormed()
  {
    quantity % inst.lotSize == 0 && quantity >= inst.minQuantity
  }

  /** Is a resting order at `price` within the limit of `o`? */
  predicate Within(o: Order, price: int) {
    o.kind.Market? || if o.side.Buy? then price <= o.price else price >= o.price
  }

  /** Does anything on the other side lie within the limit of `o`? */
  ghost predicate Reached(b: Book, o: Order) {
    exists i :: 0 <= i < |b.Queue(o.side.Opposite())| && Within(o, b.Queue(o.side.Opposite())[i].price)
  }

  /** Is an order with this identifier on the book? */
  ghost predicate OnBook(b: Book, id: nat) {
    (exists i :: 0 <= i < |b.bids| && b.bids[i].id == id) || (exists i :: 0 <= i < |b.asks| && b.asks[i].id == id)
  }

  lemma FindsWhatIsThere(b: Book, id: nat)
    ensures b.Find(id).Some? <==> OnBook(b, id)
    ensures b.Find(id).Some? ==> b.Find(id).value.id == id
  {
    hide Lookup;
    var i := LookupFinds(b.bids, id);
    var j := LookupFinds(b.asks, id);
  }

  /** The front is within reach if anything is. */
  lemma FrontReached(b: Book, o: Order)
    requires BookOk(b)
    ensures var q := b.Queue(o.side.Opposite()); Reached(b, o) <==> q != [] && Crosses(o, q[0].price)
  {
    hide Disjoint, NotCrossed;
    BookOkBySide(b, o.side.Opposite());
    var q := b.Queue(o.side.Opposite());
    forall i | 0 <= i < |q| && Within(o, q[i].price) ensures Crosses(o, q[0].price) {
      assert i > 0 ==> Precedes(q[0], q[i]);
      assert Resting(q[0], o.side.Opposite(), b.instrument);
    }
    if q != [] && Crosses(o, q[0].price) {
      assert Within(o, q[0].price);
    }
  }

  /** The answer to an order, and that a refusal changes nothing. */
  lemma AnsweredExactly(b: Book, o: Order)
    requires BookOk(b) && o.remaining <= o.quantity
    ensures var e, inst := Insert(b, o), b.instrument;
            && e.result.reject ==
                 (if o.instrument != inst.id then UnknownInstrument
                  else if !InLots(inst, o.quantity) then InvalidQuantity
                  else if o.kind.Limit? && !OnGrid(inst, o.price) then InvalidPrice
                  else if OnBook(b, o.id) then DuplicateOrderId
                  else if o.postOnly && (o.kind.Market? || Reached(b, o)) then PostOnlyWouldCross
                  else if o.tif.FillOrKill?
                  && Predict(inst, b.Queue(o.side.Opposite()), o, o.remaining) < o.remaining then FillOrKillUnfillable
                  else Accepted)
            && (e.result.reject != Accepted ==>
                  e == Effect(b, SubmitResult(e.result.reject, 0, 0, false), [], []))
  {
    hide BookOk, Run, Lookup, OnBook, Reached, Place;
    BookWellFormed(b);
    FindsWhatIsThere(b, o.id);
    FrontReached(b, o);
    if o.tif.FillOrKill? {
      KilledExactly(b, o);
    }
  }

  /** Where an accepted order ends up: what is left of it rests as it was sent, with the part that
      traded behind it, unless it is not the kind that rests; then it is not on the book. */
  lemma RestsAsSent(b: Book, o: Order)
    requires BookOk(b) && Fresh(b, o.sequence) && o.remaining <= o.quantity && Insert(b, o).result.reject == Accepted
    ensures var e := Insert(b, o);
            var left := o.remaining - FillTotal(e.fills) - e.result.stpCancelled;
            && left >= 0
            && (e.result.rested <==> left > 0 && o.kind.Limit? && (o.tif.Day? || o.tif.GoodTilCancelled?))
            && e.book.Find(o.id) ==
                 (if e.result.rested then Some(o.(remaining := left,
                                                  quantity := left + o.Filled() + FillTotal(e.fills)))
                  else None)
  {
    hide BookOk, Run, Place, Admission, Lookup, Fresh;
    BookWellFormed(b);
    var e := Insert(b, o);
    InsertKeepsBook(b, o);
    var left := InsertConserves(b, o);
    AdmittedHere(b, o);
    if o.tif.FillOrKill? {
      FillOrKillIsAllOrNothing(b, o);
    }
    if e.result.rested {
      var x := o.(remaining := left, quantity := left + o.Filled() + FillTotal(e.fills));
      var k :| 0 <= k < |e.book.Queue(o.side)| && e.book.Queue(o.side)[k] == x;
      FoundHere(e.book, o.side, k);
    } else {
      StillAbsent(b, o);
    }
  }

  /** An order that is left with something finds nothing within its limit any more. */
  lemma LeftoverFindsNothing(b: Book, o: Order)
    requires BookOk(b) && Fresh(b, o.sequence) && o.remaining <= o.quantity && Insert(b, o).result.reject == Accepted
    requires o.remaining > FillTotal(Insert(b, o).fills) + Insert(b, o).result.stpCancelled
    ensures !Reached(Insert(b, o).book, o)
  {
    hide BookOk, Run, Place, Admission, Fresh, Reached;
    BookWellFormed(b);
    InsertKeepsBook(b, o);
    QueueLive(b, o.side.Opposite());
    RunConserves(b.instrument, Start(b, o));
    RunResidue(b.instrument, Start(b, o));
    FrontReached(Insert(b, o).book, o);
  }

  /** A post-only order trades with nobody: it is refused or it rests whole. */
  lemma PostOnlyRestsWhole(b: Book, o: Order)
    requires BookOk(b) && o.postOnly && o.remaining <= o.quantity && Insert(b, o).result.reject == Accepted
    ensures var e := Insert(b, o);
            && e.fills == [] && e.withdrawals == [] && e.result.filled == 0 && e.result.stpCancelled == 0
            && e.book.Queue(o.side.Opposite()) == b.Queue(o.side.Opposite()) && e.book.nextTradeId == b.nextTradeId
  {
    hide BookOk, Reached, Place;
    FrontReached(b, o);
    RunDone(b.instrument, Start(b, o));
  }

  /** A cancel takes the order off, hands it back as it stood, and touches no other. */
  lemma CancelledExactly(b: Book, id: nat, other: nat)
    requires BookOk(b) && other != id
    ensures var e := Cancel(b, id);
            && e.result == CancelResult(if OnBook(b, id) then Accepted else UnknownOrder, b.Find(id))
            && e.fills == [] && e.withdrawals == [] && e.book.nextTradeId == b.nextTradeId
            && e.book.Find(id) == None && e.book.Find(other) == b.Find(other)
            && (!OnBook(b, id) ==> e.book == b)
  {
    hide BookOk, Lookup, Without, OnBook;
    FindsWhatIsThere(b, id);
    if b.Find(id).Some? {
      RemovedIsGone(b, id);
      var c := RemoveOrder(b, b.Find(id).value);
      if c.Find(other).Some? {
        RemovedLeavesOthers(b, id, other);
      } else if b.Find(other).Some? {
        OthersStay(b, id, other);
      }
    }
  }

  lemma OthersStay(b: Book, id: nat, other: nat)
    requires BookOk(b) && b.Find(id).Some? && b.Find(other).Some? && other != id
    ensures RemoveOrder(b, b.Find(id).value).Find(other).Some?
  {
    hide BookOk, Lookup, Without;
    var o, x := b.Find(id).value, b.Find(other).value;
    var k := FindLocates(b, id);
    var j := FindLocates(b, other);
    var c := RemoveOrder(b, o);
    RemoveKeepsBook(b, id);
    BookOkBySideUnique(b, o.side);
    WithoutAt(b.Queue(o.side), k);
    if x.side == o.side {
      var at := if j < k then j else j - 1;
      assert c.Queue(o.side)[at] == x;
      FoundHere(c, x.side, at);
    } else {
      FoundHere(c, x.side, j);
    }
  }

  /** The order `o` back in the queue on new terms, with `left` to trade and `filled` traded, or gone. */
  predicate Rejoined(found: Option<Order>, o: Order, price: int, sequence: nat, now: int, left: nat, filled: int) {
    if left == 0 then found == None
    else
      && found.Some? && found.value.Filled() == filled
      && found.value == o.(price := price, sequence := sequence, acceptedAt := now, remaining := left,
                           quantity := found.value.quantity)
  }

  /** The answer to an amendment, and the order as it stands afterwards: gone if it is reduced to what
      has traded, resized where it stands if only its size shrinks, and otherwise a new arrival under
      its old identity with its fills behind it. */
  lemma ReplacedExactly(b: Book, id: nat, price: int, quantity: nat, sequence: nat, now: int)
    requires BookOk(b) && Fresh(b, sequence) && b.Find(id).Some?
    ensures var e, o, inst := Replace(b, id, price, quantity, sequence, now), b.Find(id).value, b.instrument;
            && e.result.reject ==
                 (if !OnGrid(inst, price) then InvalidPrice
                  else if !InLots(inst, quantity) then InvalidQuantity
                  else if o.Filled() < quantity && !(price == o.price && quantity < o.quantity)
                  && o.postOnly && Reached(b, o.(price := price)) then PostOnlyWouldCross
                  else Accepted)
            && e.result.previous == Some(o)
            && (e.result.priorityRetained <==>
                  e.result.reject == Accepted && price == o.price && o.Filled() < quantity < o.quantity)
            && (e.result.reject == Accepted ==>
                  && (quantity <= o.Filled() ==> e.fills == [] && e.book.Find(id) == None)
                  && (e.result.priorityRetained ==>
                        e.fills == [] && e.book.Find(id) == Some(o.(quantity := quantity,
                                                                    remaining := quantity - o.Filled())))
                  && (quantity > o.Filled() && !e.result.priorityRetained ==>
                        var left := quantity - o.Filled() - FillTotal(e.fills) - e.result.stpCancelled;
                        && left >= 0 && e.result.filled == FillTotal(e.fills) && (e.result.rested <==> left > 0)
                        && Rejoined(e.book.Find(id), o, price, sequence, now, left, o.Filled() + FillTotal(e.fills))))
  {
    hide BookOk, Lookup, Without, Run, Reached, Insert, Amend, Fresh, RemoveOrder, WouldCross, FillTotal;
    BookWellFormed(b);
    var o := b.Find(id).value;
    var k := FindLocates(b, id);
    RefusedReplace(b, id, price, quantity, sequence, now);
    CrossesWhenReached(b, o.(price := price));
    RemovedIsGone(b, id);
    if Requeues(b, id, price, quantity) && !RequeueCrosses(b, id, price, quantity) {
      RequeueAdmission(b, id, price, quantity, sequence, now);
      Requeued(b, id, price, quantity, sequence, now);
    } else if b.instrument.IsValidPrice(price) && b.instrument.IsValidQuantity(quantity) && quantity > o.Filled()
              && price == o.price && quantity < o.quantity {
      AmendedIsFound(b, id, o.(quantity := quantity, remaining := quantity - o.Filled()));
    }
  }

  lemma CrossesWhenReached(b: Book, o: Order)
    requires BookOk(b) && o.kind.Limit?
    ensures WouldCross(b, o) <==> Reached(b, o)
  {
    hide BookOk, Reached;
    FrontReached(b, o);
  }

  lemma Requeued(b: Book, id: nat, price: int, quantity: nat, sequence: nat, now: int)
    requires BookOk(b) && Fresh(b, sequence) && Requeues(b, id, price, quantity)
             && !RequeueCrosses(b, id, price, quantity)
    ensures var o := b.Find(id).value;
            var e := Insert(RemoveOrder(b, o), Amended(o, price, quantity, sequence, now));
            var left := quantity - o.Filled() - FillTotal(e.fills) - e.result.stpCancelled;
            && e.result.reject == Accepted && left >= 0 && e.result.filled == FillTotal(e.fills)
            && (e.result.rested <==> left > 0)
            && Rejoined(e.book.Find(id), o, price, sequence, now, left, o.Filled() + FillTotal(e.fills))
  {
    hide BookOk, Lookup, Without, Run, Fresh, RemoveOrder, Admission, FillTotal, RequeueCrosses, Place;
    BookWellFormed(b);
    var o := b.Find(id).value;
    var k := FindLocates(b, id);
    RequeueAdmission(b, id, price, quantity, sequence, now);
    RemoveKeepsBook(b, id);
    RemoveInstrument(b, o);
    var c, x := RemoveOrder(b, o), Amended(o, price, quantity, sequence, now);
    RestsAsSent(c, x);
    var left := InsertConserves(c, x);
  }

  // ----- whole lots

  predicate Multiple(n: int, lot: nat)
    requires lot >= 1
  {
    n % lot == 0
  }

  lemma MultipleOf(k: int, lot: nat)
    requires lot >= 1
    ensures Multiple(k * lot, lot)
  {
    QuotientIs(k * lot, lot, k);
    assert (k + 1) * lot == k * lot + lot;
  }

  lemma MultiplesDiffer(m: int, n: int, lot: nat)
    requires lot >= 1 && Multiple(m, lot) && Multiple(n, lot)
    ensures Multiple(m - n, lot)
  {
    assert m == (m / lot) * lot && n == (n / lot) * lot;
    assert m - n == (m / lot - n / lot) * lot;
    MultipleOf(m / lot - n / lot, lot);
  }

  predicate WholeLots(o: Order, lot: nat)
    requires lot >= 1
  {
    Multiple(o.quantity, lot) && Multiple(o.remaining, lot)
  }

  ghost predicate AllWhole(q: seq<Order>, lot: nat)
    requires lot >= 1
  {
    forall i :: 0 <= i < |q| ==> WholeLots(q[i], lot)
  }

  ghost predicate FillsWhole(fs: seq<Fill>, lot: nat)
    requires lot >= 1
  {
    forall i :: 0 <= i < |fs| ==> Multiple(fs[i].quantity, lot)
  }

  lemma StepWhole(inst: Instrument, s: MatchState)
    requires inst.WellFormed() && !Finished(s) && Live(s.queue) && s.incoming.remaining <= s.incoming.quantity
    requires AllWhole(s.queue, inst.lotSize) && WholeLots(s.incoming, inst.lotSize) && FillsWhole(s.fills, inst.lotSize)
    ensures var t := Step(inst, s);
            && AllWhole(t.queue, inst.lotSize) && WholeLots(t.incoming, inst.lotSize)
            && FillsWhole(t.fills, inst.lotSize)
  {
    hide Multiple;
    var lot, o, x := inst.lotSize, s.incoming, s.queue[0];
    assert WholeLots(x, lot);
    var m := Min(o.remaining, x.remaining);
    MultiplesDiffer(o.remaining, m, lot);
    MultiplesDiffer(x.remaining, m, lot);
    MultiplesDiffer(o.quantity, m, lot);
    MultiplesDiffer(x.quantity, m, lot);
    MultipleOf(0, lot);
    StepShape(inst, s);
  }

  /** Where the orders of a step come from. */
  lemma StepShape(inst: Instrument, s: MatchState)
    requires !Finished(s) && Live(s.queue)
    ensures var t := Step(inst, s);
            t.queue == s.queue || t.queue == s.queue[1..] || (t.queue != [] && t.queue[1..] == s.queue[1..])
  {
    var t := Step(inst, s);
    assert ([] + s.queue[1..]) == s.queue[1..];
  }

  lemma {:induction false} RunWhole(inst: Instrument, s: MatchState)
    requires inst.WellFormed() && Live(s.queue) && s.incoming.remaining <= s.incoming.quantity
    requires AllWhole(s.queue, inst.lotSize) && WholeLots(s.incoming, inst.lotSize) && FillsWhole(s.fills, inst.lotSize)
    ensures var r := Run(inst, s);
            && AllWhole(r.queue, inst.lotSize) && WholeLots(r.incoming, inst.lotSize)
            && FillsWhole(r.fills, inst.lotSize)
    decreases Measure(s)
  {
    hide Step, AllWhole, WholeLots, FillsWhole;
    if !Finished(s) {
      StepWhole(inst, s);
      StepResidue(inst, s);
      StepShrinks(inst, s);
      StepConserves(inst, s);
      ConservedSizes(s, Step(inst, s));
      RunWhole(inst, Step(inst, s));
    }
  }

  ghost predicate BookWhole(b: Book)
    requires b.instrument.WellFormed()
  {
    AllWhole(b.bids, b.instrument.lotSize) && AllWhole(b.asks, b.instrument.lotSize)
  }

  lemma InsertWhole(b: Book, o: Order)
    requires BookOk(b) && BookWhole(b) && o.remaining <= o.quantity && Multiple(o.remaining, b.instrument.lotSize)
    ensures var e := Insert(b, o);
            e.book.instrument == b.instrument && BookWhole(e.book) && FillsWhole(e.fills, b.instrument.lotSize)
  {
    hide BookOk, Run, Place, Multiple, Lookup;
    BookWellFormed(b);
    if Insert(b, o).result.reject == Accepted {
      QueueLive(b, o.side.Opposite());
      LotsAccepted(b, o);
      RunWhole(b.instrument, Start(b, o));
      var r := Run(b.instrument, Start(b, o));
      MatchedIncoming(b, o);
      PlacedWhole(b.Queue(o.side), r.incoming, b.instrument.lotSize);
    }
  }

  lemma LotsAccepted(b: Book, o: Order)
    requires b.instrument.WellFormed() && Admission(b, o) == Accepted
    ensures Multiple(o.quantity, b.instrument.lotSize)
  {
  }

  lemma PlacedWhole(q: seq<Order>, o: Order, lot: nat)
    requires lot >= 1 && AllWhole(q, lot) && WholeLots(o, lot)
    ensures AllWhole(Place(q, o), lot)
  {
    hide Place, WholeLots;
    var k := PlaceRank(q, o);
    SplicedElements(q, o, k, Place(q, o));
  }

  lemma RemoveWhole(b: Book, id: nat)
    requires BookOk(b) && BookWhole(b) && b.Find(id).Some?
    ensures RemoveOrder(b, b.Find(id).value).instrument == b.instrument
    ensures BookWhole(RemoveOrder(b, b.Find(id).value)) && WholeLots(b.Find(id).value, b.instrument.lotSize)
  {
    hide BookOk, Lookup, Without, WholeLots;
    var k := FindLocates(b, id);
    var o := b.Find(id).value;
    BookOkBySideUnique(b, o.side);
    WithoutAt(b.Queue(o.side), k);
  }

  lemma ReplaceWhole(b: Book, id: nat, price: int, quantity: nat, sequence: nat, now: int)
    requires BookOk(b) && BookWhole(b)
    ensures var e := Replace(b, id, price, quantity, sequence, now);
            e.book.instrument == b.instrument && BookWhole(e.book) && FillsWhole(e.fills, b.instrument.lotSize)
  {
    hide BookOk, Lookup, Without, Insert, Amend, RemoveOrder, Multiple;
    BookWellFormed(b);
    if b.Find(id).Some? && b.instrument.IsValidPrice(price) && b.instrument.IsValidQuantity(quantity) {
      var o, lot := b.Find(id).value, b.instrument.lotSize;
      var k := FindLocates(b, id);
      RemoveWhole(b, id);
      RemoveKeepsBook(b, id);
      ValidIsWhole(b.instrument, quantity);
      MultiplesDiffer(o.quantity, o.remaining, lot);
      MultiplesDiffer(quantity, o.Filled(), lot);
      if quantity > o.Filled() {
        if price == o.price && quantity < o.quantity {
          BookOkBySideUnique(b, o.side);
          EditAtUnique(b.Queue(o.side), o.(quantity := quantity, remaining := quantity - o.Filled()), k);
        } else {
          InsertWhole(RemoveOrder(b, o), Amended(o, price, quantity, sequence, now));
        }
      }
    }
  }

  lemma ValidIsWhole(inst: Instrument, quantity: nat)
    requires inst.WellFormed() && inst.IsValidQuantity(quantity)
    ensures Multiple(quantity, inst.lotSize) && quantity >= inst.minQuantity
  {
  }

  lemma ApplyWhole(b: Book, c: Command)
    requires BookOk(b) && BookWhole(b)
    ensures var e := Apply(b, c);
            e.book.instrument == b.instrument && BookWhole(e.book) && FillsWhole(e.fills, b.instrument.lotSize)
  {
    hide BookOk, Insert, Replace, Lookup, Multiple, RemoveOrder;
    BookWellFormed(b);
    match c
    case SubmitOrder(o) =>
      var x := o.(remaining := o.quantity);
      if Insert(b, x).result.reject == Accepted {
        SubmitWhole(b, x);
      } else {
        AnsweredExactly(b, x);
      }
    case CancelOrder(id) =>
      if b.Find(id).Some? {
        RemoveWhole(b, id);
      }
    case ReplaceOrder(id, price, quantity, sequence, now) => ReplaceWhole(b, id, price, quantity, sequence, now);
  }

  lemma SubmitWhole(b: Book, o: Order)
    requires BookOk(b) && BookWhole(b) && o.remaining == o.quantity && Insert(b, o).result.reject == Accepted
    ensures var e := Insert(b, o);
            e.book.instrument == b.instrument && BookWhole(e.book) && FillsWhole(e.fills, b.instrument.lotSize)
  {
    hide BookOk, Execute, Run, Lookup, Multiple;
    BookWellFormed(b);
    LotsAccepted(b, o);
    InsertWhole(b, o);
  }

  /** Over every numbered stream, every order on the book is on the price grid and inside the band,
      and every quantity on it and every trade is a whole number of lots. */
  lemma {:induction false} GridAndLotsKept(inst: Instrument, cmds: seq<Command>, first: nat)
    requires inst.WellFormed() && Numbered(cmds, first)
    ensures var b := After(EmptyBook(inst), cmds);
            && BookWhole(b)
            && (forall i :: 0 <= i < |b.bids| ==> OnGrid(inst, b.bids[i].price))
            && (forall i :: 0 <= i < |b.asks| ==> OnGrid(inst, b.asks[i].price))
            && (cmds != [] ==>
                  FillsWhole(Apply(After(EmptyBook(inst), cmds[..|cmds| - 1]), cmds[|cmds| - 1]).fills, inst.lotSize))
  {
    hide Apply, BookWhole, FillsWhole;
    RunKeepsBook(inst, cmds, first);
    PricesOnGrid(After(EmptyBook(inst), cmds));
    if cmds == [] {
      NothingOnBook(inst);
    } else {
      var before := cmds[..|cmds| - 1];
      GridAndLotsKept(inst, before, first);
      RunKeepsBook(inst, before, first);
      ApplyWhole(After(EmptyBook(inst), before), cmds[|cmds| - 1]);
    }
  }

  lemma NothingOnBook(inst: Instrument)
    requires inst.WellFormed()
    ensures BookWhole(EmptyBook(inst))
  {
  }

  lemma PricesOnGrid(b: Book)
    requires BookOk(b)
    ensures forall i :: 0 <= i < |b.bids| ==> OnGrid(b.instrument, b.bids[i].price)
    ensures forall i :: 0 <= i < |b.asks| ==> OnGrid(b.instrument, b.asks[i].price)
  {
    forall i | 0 <= i < |b.bids| ensures OnGrid(b.instrument, b.bids[i].price) {
      assert Resting(b.bids[i], Buy, b.instrument);
    }
    forall i | 0 <= i < |b.asks| ensures OnGrid(b.instrument, b.asks[i].price) {
      assert Resting(b.asks[i], Sell, b.instrument);
    }
  }
}

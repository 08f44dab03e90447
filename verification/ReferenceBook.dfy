/** The deliberately naive book: one flat list, scanned for the best price and
    then the lowest sequence number.  Fill-or-kill is decided by matching a copy.

    The ghost field `book` is the same content in matching order; every method
    is proved to move it as the functions of Matching say. */
module ReferenceModel {
  import opened Types
  import opened Matching
  import opened BookInvariant
  import opened BookSteps
  import opened Conservation

  // ----- a flat list and a side in matching order with the same orders

  ghost predicate Holds(orders: seq<Order>, q: seq<Order>, side: Side) {
    forall o :: o in q <==> o in orders && o.side == side
  }

  ghost predicate Flat(orders: seq<Order>, b: Book) {
    UniqueIds(orders) && Holds(orders, b.bids, Buy) && Holds(orders, b.asks, Sell)
  }

  lemma FlatBySide(orders: seq<Order>, b: Book, side: Side)
    ensures Flat(orders, b) <==>
            UniqueIds(orders) && Holds(orders, b.Queue(side), side)
            && Holds(orders, b.Queue(side.Opposite()), side.Opposite())
  {
  }

  lemma RemovedElements(s: seq<Order>, i: nat)
    requires i < |s| && UniqueIds(s)
    ensures var r := s[..i] + s[i + 1..];
            UniqueIds(r) && forall o :: o in r <==> o in s && o.id != s[i].id
  {
    var r := s[..i] + s[i + 1..];
    assert forall j :: 0 <= j < |r| ==> r[j] == s[Past(j, i)];
    SkippedElements(s, i, r);
  }

  lemma ChangedElements(s: seq<Order>, i: nat, o: Order)
    requires i < |s| && UniqueIds(s) && o.id == s[i].id
    ensures var r := s[i := o];
            UniqueIds(r) && forall x :: x in r <==> (x in s && x.id != o.id) || x == o
  {
    var r := s[i := o];
    forall x | x in s && x.id != o.id ensures x in r {
      var j :| 0 <= j < |s| && s[j] == x;
      assert r[j] == x;
    }
    assert r[i] == o;
  }

  lemma FlatLocates(orders: seq<Order>, b: Book, i: nat) returns (k: nat)
    requires BookOk(b) && Flat(orders, b) && i < |orders|
    ensures var o := orders[i];
            b.Find(o.id) == Some(o) && k < |b.Queue(o.side)| && b.Queue(o.side)[k] == o
            && Resting(o, o.side, b.instrument)
  {
    var o := orders[i];
    assert o in orders;
    var x := LookupFinds(b.bids, o.id);
    var y := LookupFinds(b.asks, o.id);
    assert o in b.bids || o in b.asks;
    if o in b.bids {
      k :| 0 <= k < |b.bids| && b.bids[k] == o;
      LookupAt(b.bids, k);
    } else {
      k :| 0 <= k < |b.asks| && b.asks[k] == o;
      LookupAt(b.asks, k);
      assert forall j :: 0 <= j < |b.bids| ==> b.bids[j].id != b.asks[k].id;
    }
  }

  /** Dropping the same order from the list and from its side keeps them in step. */
  lemma DropKeepsFlat(orders: seq<Order>, b: Book, i: nat, k: nat)
    requires BookOk(b) && Flat(orders, b) && i < |orders|
    requires k < |b.Queue(orders[i].side)| && b.Queue(orders[i].side)[k] == orders[i]
    ensures var o := orders[i];
            Flat(orders[..i] + orders[i + 1..], b.WithQueue(o.side, Without(b.Queue(o.side), o.id)))
  {
    var o := orders[i];
    var q := b.Queue(o.side);
    var c := b.WithQueue(o.side, Without(q, o.id));
    FlatBySide(orders, b, o.side);
    RemovedElements(orders, i);
    WithoutElements(q, k);
    FlatBySide(orders[..i] + orders[i + 1..], c, o.side);
  }

  lemma ChangeKeepsFlat(orders: seq<Order>, b: Book, i: nat, k: nat, o: Order)
    requires BookOk(b) && Flat(orders, b) && i < |orders|
    requires k < |b.Queue(orders[i].side)| && b.Queue(orders[i].side)[k] == orders[i]
    requires o.id == orders[i].id && o.side == orders[i].side
    ensures Flat(orders[i := o], b.WithQueue(o.side, b.Queue(o.side)[k := o]))
  {
    var q := b.Queue(o.side);
    var c := b.WithQueue(o.side, q[k := o]);
    FlatBySide(orders, b, o.side);
    ChangedElements(orders, i, o);
    ChangedElements(q, k, o);
    FlatBySide(orders[i := o], c, o.side);
  }

  /** The list follows a matching step when its slot does what the front did. */
  lemma StepKeepsFlat(orders: seq<Order>, b: Book, side: Side, s: MatchState, slot: nat)
    requires BookOk(b) && Flat(orders, b) && b.Queue(side.Opposite()) == s.queue && !Finished(s)
    requires slot < |orders| && orders[slot] == s.queue[0]
    ensures var t := Step(b.instrument, s);
            && |s.queue| - 1 <= |t.queue| <= |s.queue|
            && Flat(if |t.queue| < |s.queue| then orders[..slot] + orders[slot + 1..] else orders[slot := t.queue[0]],
                    During(b, side, t))
  {
    var t := Step(b.instrument, s);
    BookOkBySide(b, side);
    assert Resting(s.queue[0], side.Opposite(), b.instrument);
    if |t.queue| < |s.queue| {
      assert t.queue == s.queue[1..] == Without(s.queue, s.queue[0].id);
      DropKeepsFlat(orders, b, slot, 0);
    } else {
      assert t.queue == s.queue[0 := t.queue[0]];
      ChangeKeepsFlat(orders, b, slot, 0, t.queue[0]);
    }
  }

  lemma PushKeepsFlat(orders: seq<Order>, b: Book, o: Order)
    requires BookOk(b) && Flat(orders, b)
    requires Resting(o, o.side, b.instrument) && SequencedBefore(b.Queue(o.side), o.sequence)
    requires forall i :: 0 <= i < |orders| ==> orders[i].id != o.id
    ensures Flat(orders + [o], Rested(b, o))
  {
    FlatBySide(orders, b, o.side);
    forall i | 0 <= i < |b.Queue(o.side)| ensures b.Queue(o.side)[i].id != o.id {
      assert b.Queue(o.side)[i] in b.Queue(o.side);
    }
    PlaceKeepsSide(b.Queue(o.side), o, o.side, b.instrument);
    FlatBySide(orders + [o], Rested(b, o), o.side);
  }

  lemma FlatHasNo(orders: seq<Order>, b: Book, id: nat)
    requires Flat(orders, b)
    requires forall i :: 0 <= i < |b.bids| ==> b.bids[i].id != id
    requires forall i :: 0 <= i < |b.asks| ==> b.asks[i].id != id
    ensures forall i :: 0 <= i < |orders| ==> orders[i].id != id
  {
    forall i | 0 <= i < |orders| ensures orders[i].id != id {
      assert orders[i] in orders;
      assert orders[i] in b.bids || orders[i] in b.asks;
    }
  }

  /** What is left of an admitted order can be pushed onto the list. */
  lemma RestKeepsFlat(orders: seq<Order>, b: Book, o: Order)
    requires BookOk(b) && Fresh(b, o.sequence) && o.remaining <= o.quantity
    requires Admission(b, o) == Accepted && Rests(o, Run(b.instrument, Start(b, o)).incoming.remaining)
    requires Flat(orders, Matched(b, o))
    ensures var left := Run(b.instrument, Start(b, o)).incoming;
            Flat(orders + [left], Rested(Matched(b, o), left))
  {
    var left := Run(b.instrument, Start(b, o)).incoming;
    var c := Matched(b, o);
    LeftoverMayRest(b, o);
    MatchedKeepsBook(b, o);
    assert c.Queue(o.side) == b.Queue(o.side) && c.Queue(o.side.Opposite()) == Run(b.instrument, Start(b, o)).queue;
    FlatHasNo(orders, c, o.id);
    FreshBySide(c, o.side, o.sequence);
    PushKeepsFlat(orders, c, left);
  }

  lemma PrecedesTransitive(a: Order, b: Order, c: Order)
    requires a.side == b.side == c.side && Precedes(a, b) && Precedes(b, c)
    ensures Precedes(a, c)
  {
  }

  /** The front of a side is the only order no other precedes. */
  lemma FrontIsUnpreceded(q: seq<Order>, o: Order)
    requires Sorted(q) && o in q && !Precedes(q[0], o)
    ensures o == q[0]
  {
  }

  lemma FrontPrecedes(q: seq<Order>, o: Order)
    requires Sorted(q) && o in q
    ensures o == q[0] || Precedes(q[0], o)
  {
  }

  /** Two strictly ordered sequences with the same orders are the same sequence. */
  lemma {:induction false} SortedIsUnique(p: seq<Order>, q: seq<Order>, side: Side)
    requires Sorted(p) && Sorted(q)
    requires forall o :: o in p <==> o in q
    requires forall o :: o in p ==> o.side == side
    ensures p == q
  {
    assert |p| > 0 ==> p[0] in p;
    assert |q| > 0 ==> q[0] in q;
    if p != [] && q != [] {
      FrontPrecedes(p, q[0]);
      FrontPrecedes(q, p[0]);
      forall o | o in p[1..] ensures o in q[1..] {
        var i :| 1 <= i < |p| && p[i] == o;
        assert Precedes(p[0], o);
        assert o in p && o in q;
        var j :| 0 <= j < |q| && q[j] == o;
      }
      forall o | o in q[1..] ensures o in p[1..] {
        var i :| 1 <= i < |q| && q[i] == o;
        assert Precedes(q[0], o);
        assert o in q && o in p;
        var j :| 0 <= j < |p| && p[j] == o;
      }
      SortedIsUnique(p[1..], q[1..], side);
    }
  }

  class ReferenceBook {
    const instrument: Instrument
    var orders: seq<Order>
    var nextTradeId: nat
    ghost var book: Book

    ghost predicate Valid()
      reads this
    {
      && BookOk(book)
      && book.instrument == instrument
      && book.nextTradeId == nextTradeId
      && Flat(orders, book)
    }

    constructor (inst: Instrument)
      requires inst.WellFormed()
      ensures Valid() && book == EmptyBook(inst) && instrument == inst
    {
      instrument := inst;
      orders := [];
      nextTradeId := 1;
      book := EmptyBook(inst);
    }

    /** The throwaway copy that fill-or-kill tries itself on. */
    constructor Copy(other: ReferenceBook)
      requires other.Valid()
      ensures Valid() && book == other.book && instrument == other.instrument
    {
      instrument := other.instrument;
      orders := other.orders;
      nextTradeId := other.nextTradeId;
      book := other.book;
    }

    method Find(id: nat) returns (index: int)
      requires Valid()
      ensures -1 <= index < |orders|
      ensures index >= 0 ==> orders[index].id == id && book.Find(id) == Some(orders[index])
      ensures index < 0 <==> book.Find(id).None?
      ensures index < 0 ==> forall i :: 0 <= i < |orders| ==> orders[i].id != id
    {
      index := -1;
      for i := 0 to |orders|
        invariant forall j :: 0 <= j < i ==> orders[j].id != id
      {
        if orders[i].id == id {
          index := i;
          break;
        }
      }
      var _ := LookupFinds(book.bids, id);
      var _ := LookupFinds(book.asks, id);
    }

    /** Price first, then arrival, over every live order. */
    method BestCounterparty(aggressorSide: Side, limit: int, isMarket: bool) returns (best: int)
      requires Valid()
      ensures -1 <= best < |orders|
      ensures var q := book.Queue(aggressorSide.Opposite());
              if best >= 0 then q != [] && orders[best] == q[0] && Reaches(aggressorSide, limit, isMarket, q[0].price)
              else q == [] || !Reaches(aggressorSide, limit, isMarket, q[0].price)
    {
      best := -1;
      for i := 0 to |orders|
        invariant -1 <= best < i
        invariant best >= 0 ==> Eligible(orders[best], aggressorSide, limit, isMarket)
        invariant best < 0 ==> forall j :: 0 <= j < i ==> !Eligible(orders[j], aggressorSide, limit, isMarket)
        invariant best >= 0 ==> forall j :: 0 <= j < i && Eligible(orders[j], aggressorSide, limit, isMarket) ==>
                  !Precedes(orders[j], orders[best])
      {
        var candidate := orders[i];
        if candidate.side == aggressorSide || candidate.remaining == 0 {
          continue;
        }
        if !isMarket {
          var crosses := if aggressorSide.Buy? then candidate.price <= limit else candidate.price >= limit;
          if !crosses {
            continue;
          }
        }
        if best < 0 {
          best := i;
          continue;
        }
        var incumbent := orders[best];
        var betterPrice := if aggressorSide.Buy? then candidate.price < incumbent.price
            else candidate.price > incumbent.price;
        var samePriceButEarlier := candidate.price == incumbent.price && candidate.sequence < incumbent.sequence;
        if betterPrice || samePriceButEarlier {
          best := i;
        }
      }
      BestIsFront(best, aggressorSide, limit, isMarket);
    }

    lemma BestIsFront(best: int, aggressorSide: Side, limit: int, isMarket: bool)
      requires Valid() && -1 <= best < |orders|
      requires best >= 0 ==> Eligible(orders[best], aggressorSide, limit, isMarket)
      requires best < 0 ==> forall j :: 0 <= j < |orders| ==> !Eligible(orders[j], aggressorSide, limit, isMarket)
      requires best >= 0 ==> forall j :: 0 <= j < |orders| && Eligible(orders[j], aggressorSide, limit, isMarket) ==>
               !Precedes(orders[j], orders[best])
      ensures var q := book.Queue(aggressorSide.Opposite());
              if best >= 0 then q != [] && orders[best] == q[0] && Reaches(aggressorSide, limit, isMarket, q[0].price)
              else q == [] || !Reaches(aggressorSide, limit, isMarket, q[0].price)
    {
      var q := book.Queue(aggressorSide.Opposite());
      FlatBySide(orders, book, aggressorSide);
      BookOkBySide(book, aggressorSide);
      assert best >= 0 ==> orders[best] in q;
      if q != [] {
        assert q[0] in q && Resting(q[0], aggressorSide.Opposite(), instrument);
        var j :| 0 <= j < |orders| && orders[j] == q[0];
        if best >= 0 {
          FrontReachesToo(q, orders[best], aggressorSide, limit, isMarket);
          FrontIsUnpreceded(q, orders[best]);
        }
      }
    }

    method Remove(index: nat)
      requires Valid() && index < |orders|
      modifies this
      ensures Valid() && book == RemoveOrder(old(book), old(orders[index]))
    {
      ghost var o := orders[index];
      ghost var k := FlatLocates(orders, book, index);
      RemoveKeepsBook(book, o.id);
      DropKeepsFlat(orders, book, index, k);
      orders := orders[..index] + orders[index + 1..];
      book := RemoveOrder(book, o);
    }

    /** One turn of the matching loop against `slot`, for an aggressor whose
        own order is in the way. */
    method MeetOwn(slot: nat, order: Order, ghost s: MatchState) returns (incoming: Order, stpCancelled: nat)
      requires Valid() && !Finished(s) && book.Queue(order.side.Opposite()) == s.queue && s.incoming == order
      requires s.nextTradeId == nextTradeId && order.remaining <= order.quantity
      requires slot < |orders| && orders[slot] == s.queue[0]
      requires PreventionActive(instrument.selfTradePolicy, order) && orders[slot].account == order.account
      modifies this
      ensures var t := Step(instrument, s);
              && incoming == t.incoming && s.stpCancelled + stpCancelled == t.stpCancelled && t.fills == s.fills
              && Valid() && book == During(old(book), order.side, t)
    {
      hide BookOk, Flat;
      ghost var t := Step(instrument, s);
      StepKeepsBook(book, order.side, s);
      StepKeepsFlat(orders, book, order.side, s, slot);
      QueueLive(book, order.side.Opposite());
      var resting := orders[slot];
      incoming, stpCancelled := order, 0;
      match instrument.selfTradePolicy {
        case CancelIncoming =>
          stpCancelled := incoming.remaining;
          incoming := incoming.(remaining := 0);
          assert orders[slot := t.queue[0]] == orders;
        case CancelResting =>
          orders := orders[..slot] + orders[slot + 1..];
        case CancelBoth =>
          stpCancelled := incoming.remaining;
          incoming := incoming.(remaining := 0);
          orders := orders[..slot] + orders[slot + 1..];
        case DecrementBoth =>
          var overlap := Min(incoming.remaining, resting.remaining);
          incoming := incoming.(remaining := incoming.remaining - overlap, quantity := incoming.quantity - overlap);
          resting := resting.(remaining := resting.remaining - overlap, quantity := resting.quantity - overlap);
          stpCancelled := overlap;
          orders := if resting.remaining == 0 then orders[..slot] + orders[slot + 1..] else orders[slot := resting];
      }
      book := During(book, order.side, t);
    }

    /** One turn of the matching loop against `slot` that prints a trade. */
    method Trade(slot: nat, order: Order, ghost s: MatchState) returns (incoming: Order, fill: Fill)
      requires Valid() && !Finished(s) && book.Queue(order.side.Opposite()) == s.queue && s.incoming == order
      requires s.nextTradeId == nextTradeId
      requires slot < |orders| && orders[slot] == s.queue[0]
      requires !(PreventionActive(instrument.selfTradePolicy, order) && orders[slot].account == order.account)
      modifies this
      ensures var t := Step(instrument, s);
              && incoming == t.incoming && t.fills == s.fills + [fill] && t.stpCancelled == s.stpCancelled
              && Valid() && book == During(old(book), order.side, t)
    {
      hide BookOk, Flat;
      ghost var t := Step(instrument, s);
      StepKeepsBook(book, order.side, s);
      StepKeepsFlat(orders, book, order.side, s, slot);
      QueueLive(book, order.side.Opposite());
      var resting := orders[slot];
      var quantity := Min(order.remaining, resting.remaining);
      incoming := order.(remaining := order.remaining - quantity);
      resting := resting.(remaining := resting.remaining - quantity);
      fill := Fill(nextTradeId, instrument.id, resting.price, quantity, incoming.id, resting.id,
                   incoming.account, resting.account, incoming.side, resting.remaining == 0, incoming.acceptedAt);
      nextTradeId := nextTradeId + 1;
      orders := if resting.remaining == 0 then orders[..slot] + orders[slot + 1..] else orders[slot := resting];
      book := During(book, order.side, t);
    }

    /** One turn of the matching loop: `slot` is met, or traded with. */
    method Turn(slot: nat, order: Order, preventionActive: bool, ghost s: MatchState)
      returns (incoming: Order, fills: seq<Fill>, stpCancelled: nat)
      requires Valid() && !Finished(s) && book.Queue(order.side.Opposite()) == s.queue && s.incoming == order
      requires s.nextTradeId == nextTradeId && order.remaining <= order.quantity
      requires slot < |orders| && orders[slot] == s.queue[0]
      requires preventionActive == PreventionActive(instrument.selfTradePolicy, order)
      modifies this
      ensures var t := Step(instrument, s);
              && incoming == t.incoming && t.fills == s.fills + fills && t.stpCancelled == s.stpCancelled + stpCancelled
              && Valid() && book == During(old(book), order.side, t)
    {
      hide BookOk, Flat, Step;
      fills, stpCancelled := [], 0;
      if preventionActive && orders[slot].account == order.account {
        incoming, stpCancelled := MeetOwn(slot, order, s);
      } else {
        var fill;
        incoming, fill := Trade(slot, order, s);
        fills := [fill];
      }
    }

    method Match(order: Order) returns (incoming: Order, result: SubmitResult, fills: seq<Fill>)
      requires Valid() && order.remaining <= order.quantity
      modifies this
      ensures Valid() && book == Matched(old(book), order)
      ensures var m := Run(instrument, Start(old(book), order));
              incoming == m.incoming && fills == m.fills && result ==
                  SubmitResult(Accepted, FillTotal(m.fills), m.stpCancelled, false)
    {
      hide BookOk, Flat, Step, Run, Measure, Conserved;
      incoming, fills := order, [];
      var stpCancelled := 0;
      var preventionActive := instrument.selfTradePolicy != Allow && ValidId(incoming.account);
      ghost var s := Start(book, order);
      ghost var b0, s0 := book, s;
      StartConserved(s0);
      while incoming.remaining > 0
        invariant Valid() && book == During(b0, order.side, s)
        invariant incoming == s.incoming && fills == s.fills && stpCancelled == s.stpCancelled
        invariant Conserved(s0, s)
        invariant Run(instrument, s) == Run(instrument, s0)
        decreases Measure(s)
      {
        ConservedSizes(s0, s);
        QueueLive(book, order.side.Opposite());
        var slot := BestCounterparty(incoming.side, incoming.price, incoming.kind.Market?);
        if slot < 0 {
          break;
        }
        StepsOn(instrument, s0, s);
        var fs, cancelled;
        incoming, fs, cancelled := Turn(slot, incoming, preventionActive, s);
        fills, stpCancelled := fills + fs, stpCancelled + cancelled;
        s := Step(instrument, s);
      }
      ConservedSizes(s0, s);
      RunDone(instrument, s);
      result := SubmitResult(Accepted, order.remaining - incoming.remaining - stpCancelled, stpCancelled, false);
    }

    method WouldCross(order: Order) returns (crosses: bool)
      requires Valid()
      ensures crosses == Matching.WouldCross(book, order)
    {
      if order.kind.Market? {
        return true;
      }
      var best := BestCounterparty(order.side, order.price, false);
      crosses := best >= 0;
    }

    /** The checks of submit, in their order; fill-or-kill matches a copy to find out. */
    method Admit(order: Order) returns (reject: RejectReason)
      requires Valid() && order.remaining <= order.quantity
      ensures reject == Admission(book, order)
    {
      hide BookOk, Flat, Run;
      QueueLive(book, Buy);
      if order.instrument != instrument.id {
        return UnknownInstrument;
      }
      if !instrument.IsValidQuantity(order.quantity) {
        return InvalidQuantity;
      }
      if order.kind.Limit? && !instrument.IsValidPrice(order.price) {
        return InvalidPrice;
      }
      var existing := Find(order.id);
      if existing >= 0 {
        return DuplicateOrderId;
      }
      if order.postOnly {
        var crosses := WouldCross(order);
        if crosses {
          return PostOnlyWouldCross;
        }
      }
      if order.tif.FillOrKill? {
        var trial := new ReferenceBook.Copy(this);
        var _, simulated, _ := trial.Match(order);
        if simulated.filled < order.remaining {
          return FillOrKillUnfillable;
        }
      }
      reject := Accepted;
    }

    method Submit(original: Order) returns (result: SubmitResult, fills: seq<Fill>)
      requires Valid() && Fresh(book, original.sequence) && original.remaining <= original.quantity
      modifies this
      ensures var e := Insert(old(book), if original.remaining == 0 then original.(remaining := original.quantity)
                              else original);
              Valid() && book == e.book && result == e.result && fills == e.fills
    {
      hide BookOk, Flat, Run, Fresh, Admission;
      var order := if original.remaining == 0 then original.(remaining := original.quantity) else original;
      ghost var b0, o0 := book, order;
      InsertKeepsBook(b0, o0);
      var reject := Admit(order);
      if reject != Accepted {
        return SubmitResult(reject, 0, 0, false), [];
      }
      MatchedIncoming(b0, o0);
      order, result, fills := Match(order);
      if order.remaining == 0 {
        return;
      }
      if order.kind.Market? || order.tif.ImmediateOrCancel? {
        return;
      }
      RestKeepsFlat(orders, b0, o0);
      orders := orders + [order];
      book := Rested(book, order);
      result := result.(rested := true);
    }

    method Cancel(id: nat) returns (result: CancelResult)
      requires Valid()
      modifies this
      ensures var e := Matching.Cancel(old(book), id);
              Valid() && book == e.book && result == e.result
    {
      hide BookOk, Flat;
      var index := Find(id);
      if index < 0 {
        return CancelResult(UnknownOrder, None);
      }
      result := CancelResult(Accepted, Some(orders[index]));
      Remove(index);
    }

    method Replace(id: nat, newPrice: int, newQuantity: nat, sequence: nat, now: int)
      returns (result: ReplaceResult, fills: seq<Fill>)
      requires Valid() && Fresh(book, sequence)
      modifies this
      ensures var e := Matching.Replace(old(book), id, newPrice, newQuantity, sequence, now);
              Valid() && book == e.book && result == e.result && fills == e.fills
    {
      hide BookOk, Flat, Fresh, Insert, Without, Amend;
      fills := [];
      QueueLive(book, Buy);
      var index := Find(id);
      if index < 0 {
        return ReplaceResult(UnknownOrder, false, None, 0, 0, false), [];
      }
      var previous := orders[index];
      ghost var k := FlatLocates(orders, book, index);
      result := ReplaceResult(Accepted, false, Some(previous), 0, 0, false);
      if !instrument.IsValidPrice(newPrice) {
        result := result.(reject := InvalidPrice);
        return;
      }
      if !instrument.IsValidQuantity(newQuantity) {
        result := result.(reject := InvalidQuantity);
        return;
      }
      if newQuantity <= previous.Filled() {
        Remove(index);
        return;
      }
      if newPrice == previous.price && newQuantity < previous.quantity {
        var reduced := previous.(quantity := newQuantity, remaining := newQuantity - previous.Filled());
        AmendKeepsBook(book, id, reduced);
        BookOkBySideUnique(book, previous.side);
        EditAtUnique(book.Queue(previous.side), reduced, k);
        ChangeKeepsFlat(orders, book, index, k, reduced);
        orders := orders[index := reduced];
        book := book.WithQueue(previous.side, Amend(book.Queue(previous.side), reduced));
        result := result.(priorityRetained := true, rested := true);
        return;
      }
      RemoveKeepsBook(book, id);
      Remove(index);
      var amended := Amended(previous, newPrice, newQuantity, sequence, now);
      var resubmitted;
      resubmitted, fills := Submit(amended);
      result := result.(reject := resubmitted.reject, filled := resubmitted.filled,
                        stpCancelled := resubmitted.stpCancelled, rested := resubmitted.rested);
    }

    /** Every live order in the order it would be matched, bids before asks. */
    method RestingOrders() returns (resting: seq<Order>)
      requires Valid()
      ensures resting == book.bids + book.asks
    {
      var bids, asks: seq<Order> := [], [];
      for i := 0 to |orders|
        invariant forall o :: o in bids <==> o in orders[..i] && o.side == Buy
        invariant forall o :: o in asks <==> o in orders[..i] && o.side == Sell
        invariant UniqueIds(bids) && UniqueIds(asks)
      {
        assert orders[..i + 1] == orders[..i] + [orders[i]];
        assert forall o :: o in bids || o in asks ==> o.id != orders[i].id;
        if orders[i].side.Buy? {
          bids := bids + [orders[i]];
        } else {
          asks := asks + [orders[i]];
        }
      }
      assert orders[..|orders|] == orders;
      bids := SortByPriority(bids, book.bids, Buy);
      asks := SortByPriority(asks, book.asks, Sell);
      resting := bids + asks;
    }
  }

  predicate Eligible(o: Order, aggressorSide: Side, limit: int, isMarket: bool) {
    o.side != aggressorSide && o.remaining > 0 && Reaches(aggressorSide, limit, isMarket, o.price)
  }

  lemma FrontReachesToo(q: seq<Order>, o: Order, aggressorSide: Side, limit: int, isMarket: bool)
    requires Sorted(q) && o in q && q[0].side == aggressorSide.Opposite()
    requires Reaches(aggressorSide, limit, isMarket, o.price)
    ensures Reaches(aggressorSide, limit, isMarket, q[0].price)
  {
    var i :| 0 <= i < |q| && q[i] == o;
    assert i > 0 ==> Precedes(q[0], q[i]);
  }

  /** Sorting by price and then sequence; `sorted` is the order it must arrive at. */
  method SortByPriority(os: seq<Order>, ghost sorted: seq<Order>, ghost side: Side) returns (r: seq<Order>)
    requires UniqueIds(os)
    requires Sorted(sorted) && (forall o :: o in os <==> o in sorted) && (forall o :: o in sorted ==> o.side == side)
    ensures r == sorted
  {
    r := [];
    for i := 0 to |os|
      invariant forall o :: o in r <==> o in os[..i]
      invariant Sorted(r)
    {
      assert os[..i + 1] == os[..i] + [os[i]];
      r := InsertByPriority(r, os[i], sorted, side);
    }
    assert os[..|os|] == os;
    SortedIsUnique(r, sorted, side);
  }

  method InsertByPriority(q: seq<Order>, o: Order, ghost sorted: seq<Order>, ghost side: Side) returns (r: seq<Order>)
    requires Sorted(q) && Sorted(sorted) && o !in q
    requires o in sorted && (forall x :: x in q ==> x in sorted) && (forall x :: x in sorted ==> x.side == side)
    ensures Sorted(r) && forall x :: x in r <==> x in q || x == o
  {
    hide Sorted, Precedes;
    var k := 0;
    while k < |q| && Precedes(q[k], o)
      invariant 0 <= k <= |q|
      invariant forall i :: 0 <= i < k ==> Precedes(q[i], o)
    {
      k := k + 1;
    }
    r := q[..k] + [o] + q[k..];
    if k < |q| {
      assert q[k] in sorted;
      OnePrecedes(sorted, o, q[k]);
    }
    PlacedSorted(q, k, o);
  }

  lemma PlacedSorted(q: seq<Order>, k: nat, o: Order)
    requires Sorted(q) && k <= |q| && (k < |q| ==> Precedes(o, q[k]))
    requires (forall i :: 0 <= i < |q| ==> q[i].side == o.side) && forall i :: 0 <= i < k ==> Precedes(q[i], o)
    ensures Sorted(q[..k] + [o] + q[k..]) && forall x :: x in q[..k] + [o] + q[k..] <==> x in q || x == o
  {
    hide Precedes;
    var r := q[..k] + [o] + q[k..];
    assert forall i :: 0 <= i < |r| ==> r[i] == if i < k then q[i] else if i == k then o else q[i - 1];
    forall i | k <= i < |q| ensures Precedes(o, q[i]) {
      if i > k {
        PrecedesTransitive(o, q[k], q[i]);
      }
    }
    assert q == q[..k] + q[k..];
  }

  lemma OnePrecedes(sorted: seq<Order>, a: Order, b: Order)
    requires Sorted(sorted) && a in sorted && b in sorted && a != b
    ensures Precedes(a, b) || Precedes(b, a)
  {
  }
}

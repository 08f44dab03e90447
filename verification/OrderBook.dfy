/** The optimised order book: price ladders over a slab of orders, with a hash
    index from identifiers to handles.

    The ghost field `book` is the book in matching order and `form` gathers the
    structures; `Spells` says the one spells out the other.  Every public method
    is proved to move `book` as the functions of Matching say. */
module OrderBooks {
  import opened Arithmetic
  import opened Types
  import opened Matching
  import opened BookInvariant
  import opened BookSteps
  import opened Conservation
  import opened FillPrediction
  import opened Slab
  import opened Flattening
  import opened BookStructure
  import opened DepthView
  import opened Bitmap
  import opened Ladder
  import opened HashMap

  class OrderBook {
    const instrument: Instrument
    const pool: OrderPool
    const bids: PriceLadder
    const asks: PriceLadder
    const index: FlatHashMap
    var nextTradeId: nat
    ghost var form: Shape
    ghost var book: Book

    ghost function Repr(): set<object> { {this, pool, bids, asks, index} }

    function Levels(side: Side): PriceLadder { if side.Buy? then bids else asks }

    /** `form` is what the fields hold. */
    ghost predicate Reflects()
      reads this, pool, index
    {
      && form.inst == instrument && form.nodes == pool.nodes
      && index.Sound() && form.idx == index.Contents()
      && (forall h: nat :: h in form.tickOf <==> pool.IsLive(h))
    }

    ghost predicate ReflectsSide(side: Side)
      reads this, bids, asks
    {
      form.Levels(side) == Levels(side).levels && form.Queues(side) == Levels(side).queues
    }

    ghost predicate LadderOk(side: Side, open: int)
      reads this, bids, asks
    {
      var l := Levels(side);
      && instrument.WellFormed() && l.Valid() && l.Marks(open)
      && l.base == instrument.LadderBase() && l.tick == instrument.tickSize && l.descending == side.Buy?
    }

    /** The structural invariant, with tick `open` of `side` being worked on. */
    ghost predicate Structured(side: Side, open: int)
      reads this, pool, bids, asks, index
    {
      && Levels(side) != Levels(side.Opposite()) && pool.Valid() && index.Valid()
      && LadderOk(side, open) && ReflectsSide(side)
      && LadderOk(side.Opposite(), NPOS) && ReflectsSide(side.Opposite())
      && Reflects() && Spells(form, book) && book.nextTradeId == nextTradeId
    }

    ghost predicate Valid()
      reads Repr()
    {
      Structured(Buy, NPOS) && BookOk(book)
    }

    constructor (inst: Instrument, hash: nat -> nat, capacity: nat)
      requires inst.WellFormed()
      ensures Valid() && book == EmptyBook(inst) && instrument == inst && fresh(Repr())
    {
      hide Spells, BookOk, PriceLadder.Valid, OrderPool.Valid, FlatHashMap.Valid, FlatHashMap.Sound, Shape.Ok,
           Instrument.LadderBase, Instrument.TickCount;
      instrument := inst;
      TickCountPositive(inst);
      pool := new OrderPool();
      index := new FlatHashMap(hash, capacity * 2);
      bids := new PriceLadder(inst.LadderBase(), inst.tickSize, inst.TickCount(), true);
      asks := new PriceLadder(inst.LadderBase(), inst.tickSize, inst.TickCount(), false);
      nextTradeId := 1;
      book := EmptyBook(inst);
      new;
      form := Shape(inst, pool.nodes, bids.levels, bids.queues, asks.levels, asks.queues, map[], map[]);
      EmptySpells(form);
    }

    // ----- primitive edits
    //
    // Each states what it does to `book`; the structures follow.

    /** Order `k` of tick `t` becomes `o`, and the level total follows. */
    method Resize(side: Side, t: nat, handle: nat, o: Order, ghost k: nat, ghost open: int)
      requires Structured(side, open) && SeatAt(form, side, t, k, handle)
      requires var was := pool.nodes[handle].order;
               o == was.(remaining := o.remaining, quantity := o.quantity) && o.remaining <= was.remaining
      modifies this`book, this`form, pool`nodes, Levels(side)`levels, Levels(side)`queues
      ensures Structured(side, open) && form.Queues(side) == old(form.Queues(side))
      ensures pool.nodes == old(pool.nodes)[handle := old(pool.nodes[handle]).(order := o)]
      ensures var p, q := old(Standing(form, side, t, k)), old(book.Queue(side));
              p < |q| && book == old(book).WithQueue(side, q[p := o])
    {
      hide Spells, Changed, Levels, Shape.Levels, Shape.Queues, Standing, OrderPool.Valid,
           PriceLadder.Valid, PriceLadder.Marks, FlatHashMap.Valid, FlatHashMap.Sound, FlatHashMap.Contents;
      var l := Levels(side);
      ghost var m := Levels(side.Opposite());
      var was := pool.nodes[handle].order;
      SpellsSeat(form, book, side, t, k, handle);
      var total := l.levels[t].total - (was.remaining - o.remaining);
      SpellsChange(form, book, side, t, k, handle, o, total);
      ghost var q, p := book.Queue(side), Standing(form, side, t, k);
      assert l.Valid() && l.Marks(open) && m.Valid() && m.Marks(NPOS) && t < |l.levels| && t < |l.queues|;
      pool.SetOrder(handle, o);
      assert l.Valid() && l.Marks(open) && m.Valid() && m.Marks(NPOS) && index.Valid() && index.Sound();
      l.Store(t, l.levels[t].(total := total), l.queues[t], open);
      assert m.Valid() && m.Marks(NPOS) && pool.Valid() && index.Valid() && index.Sound()
             && index.Contents() == old(index.Contents());
      form := Changed(form, side, t, k, o, total);
      book := book.WithQueue(side, q[p := o]);
      assert l.queues == form.Queues(side);
      assert Spells(form, book);
      assert ReflectsSide(side) && ReflectsSide(side.Opposite());
      assert LadderOk(side, open) && LadderOk(side.Opposite(), NPOS);
      assert Reflects();
    }

    /** Order `id` has left its queue; its node and its index entry are still there. */
    ghost predicate Leaving(side: Side, t: nat, handle: nat, id: nat)
      reads this, pool, bids, asks, index
    {
      && Levels(side) != Levels(side.Opposite()) && pool.Valid() && index.Valid() && index.Sound()
      && LadderOk(side, t) && ReflectsSide(side) && LadderOk(side.Opposite(), NPOS) && ReflectsSide(side.Opposite())
      && form.inst == instrument && form.nodes == pool.nodes && book.nextTradeId == nextTradeId && Spells(form, book)
      && index.Contents() - {id} == form.idx && pool.IsLive(handle)
      && (forall h: nat :: h in form.tickOf <==> h != handle && pool.IsLive(h))
    }

    /** Drops an unlinked order's index entry and returns its node. */
    method Delist(side: Side, t: nat, handle: nat, id: nat)
      requires Leaving(side, t, handle, id)
      modifies this`form, pool, index
      ensures Structured(side, t) && form.Queues(side) == old(form.Queues(side))
    {
      hide Spells, Levels, Shape.Levels, Shape.Queues, OrderPool.Valid, PriceLadder.Valid, PriceLadder.Marks,
           FlatHashMap.Sound, FlatHashMap.Contents;
      ghost var l, m, s := Levels(side), Levels(side.Opposite()), form;
      assert l.Valid() && l.Marks(t) && m.Valid() && m.Marks(NPOS) && pool.Valid();
      var _ := index.Erase(id);
      assert l.Valid() && l.Marks(t) && m.Valid() && m.Marks(NPOS) && pool.Valid() && pool.IsLive(handle);
      pool.Release(handle);
      assert l.Valid() && l.Marks(t) && m.Valid() && m.Marks(NPOS) && index.Valid() && index.Sound()
             && index.Contents() == s.idx;
      assert |pool.nodes| <= NULL_HANDLE by { PoolBound(pool); }
      SpellsFrame(s, book, pool.nodes);
      form := s.(nodes := pool.nodes);
      assert ReflectsSide(side) && ReflectsSide(side.Opposite());
      assert LadderOk(side, t) && LadderOk(side.Opposite(), NPOS);
    }

    /** Unlinks the order `k` of tick `t`. */
    method Unqueue(side: Side, t: nat, handle: nat, ghost k: nat)
      requires Structured(side, t) && SeatAt(form, side, t, k, handle)
      modifies this`book, this`form, pool`nodes, Levels(side)`levels, Levels(side)`queues
      ensures Leaving(side, t, handle, old(pool.nodes[handle].order.id))
      ensures var q := old(form.Queues(side)[t]); form.Queues(side) == old(form.Queues(side))[t := q[..k] + q[k + 1..]]
      ensures var p, q := old(Standing(form, side, t, k)), old(book.Queue(side));
              p < |q| && book == old(book).WithQueue(side, q[..p] + q[p + 1..])
    {
      hide Spells, Dropped, Levels, Linked, OnlyLinksOf, Shape.Levels, Shape.Queues, Standing, OrderPool.Valid,
           PriceLadder.Valid, PriceLadder.Marks, FlatHashMap.Valid, FlatHashMap.Sound, FlatHashMap.Contents;
      var l := Levels(side);
      ghost var m := Levels(side.Opposite());
      SpellsSeat(form, book, side, t, k, handle);
      SpellsLevels(form, book, side);
      ghost var s, b, q := form, book, l.queues[t];
      assert l.Valid() && l.Marks(t) && m.Valid() && m.Marks(NPOS) && t < |l.levels| && t < |l.queues|;
      var level := Unlink(pool, l.levels[t], handle, q, k);
      assert l.Valid() && l.Marks(t) && m.Valid() && m.Marks(NPOS) && index.Valid() && index.Sound();
      SpellsDrop(s, b, side, t, k, handle, pool.nodes, level);
      l.Store(t, level, q[..k] + q[k + 1..], t);
      assert m.Valid() && m.Marks(NPOS) && pool.Valid() && index.Valid() && index.Sound() && index.Contents() == s.idx;
      ghost var p, bq := Standing(s, side, t, k), b.Queue(side);
      book := b.WithQueue(side, bq[..p] + bq[p + 1..]);
      form := Dropped(s, side, t, k, pool.nodes, level);
      assert ReflectsSide(side) && ReflectsSide(side.Opposite());
      assert LadderOk(side, t) && LadderOk(side.Opposite(), NPOS);
    }

    /** Unlinks the order `k` of tick `t`, drops its index entry and returns its node. */
    method DropResting(side: Side, t: nat, handle: nat, ghost k: nat)
      requires Structured(side, t) && SeatAt(form, side, t, k, handle)
      modifies this`book, this`form, pool, index, Levels(side)`levels, Levels(side)`queues
      ensures Structured(side, t)
      ensures var q := old(form.Queues(side)[t]); form.Queues(side) == old(form.Queues(side))[t := q[..k] + q[k + 1..]]
      ensures var p, q := old(Standing(form, side, t, k)), old(book.Queue(side));
              p < |q| && book == old(book).WithQueue(side, q[..p] + q[p + 1..])
    {
      hide Structured, Leaving, Levels, Shape.Ok, Shape.Queues, Standing, Spells, Book.WithQueue, Book.Queue;
      SpelledOut(side, t);
      var id := pool.nodes[handle].order.id;
      Unqueue(side, t, handle, k);
      Delist(side, t, handle, id);
    }

    /** Vacates tick `t` if nothing is queued there any more. */
    method CloseIfEmpty(side: Side, t: nat)
      requires Structured(side, t) && t < |form.Queues(side)|
      modifies Levels(side)`l0, Levels(side)`l1, Levels(side)`l2, Levels(side)`occupied, Levels(side)`levels
      ensures Structured(side, NPOS)
    {
      hide Spells, Levels, Linked, Shape.Levels, Shape.Queues, OrderPool.Valid, PriceLadder.Valid, PriceLadder.Marks,
           FlatHashMap.Valid, FlatHashMap.Sound;
      var l := Levels(side);
      ghost var m := Levels(side.Opposite());
      SpellsLevels(form, book, side);
      assert l.Valid() && l.Marks(t) && m.Valid() && m.Marks(NPOS) && t < |l.levels| && t < |l.queues|;
      LinkedEmpty(pool.nodes, l.levels[t], l.queues[t]);
      if l.levels[t].head == NULL_HANDLE {
        l.MarksHas(t);
        l.Erase(t);
        assert l.levels == form.Levels(side);
        assert m.Valid() && m.Marks(NPOS) && pool.Valid() && index.Valid() && index.Sound();
      } else {
        l.MarksFull(t);
      }
      assert ReflectsSide(side) && ReflectsSide(side.Opposite());
      assert LadderOk(side, NPOS) && LadderOk(side.Opposite(), NPOS);
      assert Reflects();
    }

    /** The order has a node and an index entry; no queue holds it yet. */
    ghost predicate Enlisted(order: Order, handle: nat)
      reads this, pool, bids, asks, index
    {
      && Levels(order.side) != Levels(order.side.Opposite()) && pool.Valid() && index.Valid() && index.Sound()
      && LadderOk(order.side, NPOS) && ReflectsSide(order.side)
      && LadderOk(order.side.Opposite(), NPOS) && ReflectsSide(order.side.Opposite())
      && form.inst == instrument && book.nextTradeId == nextTradeId && Spells(form.(nodes := pool.nodes), book)
      && index.Contents() == form.idx[order.id := handle] && order.id !in form.idx
      && handle < |pool.nodes| <= NULL_HANDLE && handle !in form.tickOf && pool.nodes[handle].order == order
      && (forall h: nat :: h in form.tickOf[handle := 0] <==> pool.IsLive(h))
    }

    method Enlist(order: Order) returns (handle: nat)
      requires Structured(order.side, NPOS)
      requires book.Find(order.id).None? && |book.bids| + |book.asks| < NULL_HANDLE
      modifies pool, index
      ensures Enlisted(order, handle)
    {
      hide Spells, Levels, Shape.Levels, Shape.Queues, OrderPool.Valid, PriceLadder.Valid, PriceLadder.Marks,
           FlatHashMap.Valid, FlatHashMap.Sound, Lookup;
      ghost var l, m := Levels(order.side), Levels(order.side.Opposite());
      ghost var s, b := form, book;
      SpellsLevels(s, b, order.side);
      Room();
      SpellsAbsent(s, b, order.id);
      assert l.Valid() && l.Marks(NPOS) && m.Valid() && m.Marks(NPOS) && index.Valid() && index.Sound();
      handle := pool.Acquire(order);
      assert l.Valid() && l.Marks(NPOS) && m.Valid() && m.Marks(NPOS) && index.Valid() && index.Sound()
             && index.Contents() == s.idx;
      ghost var nodes1 := pool.nodes;
      assert |nodes1| <= NULL_HANDLE by { PoolBound(pool); }
      SpellsFrame(s, b, nodes1);
      var _ := index.Insert(order.id, handle);
      assert l.Valid() && l.Marks(NPOS) && m.Valid() && m.Marks(NPOS) && pool.Valid();
    }

    /** The order joins the back of the queue at its price. */
    method Rest(order: Order)
      requires Structured(order.side, NPOS) && instrument.IsValidPrice(order.price)
      requires book.Find(order.id).None? && |book.bids| + |book.asks| < NULL_HANDLE
      modifies this`book, this`form, pool, index, Levels(order.side)
      ensures Structured(order.side, NPOS) && book == Rested(old(book), order)
    {
      hide Structured, Enlisted, Levels, Rested, Lookup, Instrument.IsValidPrice;
      var handle := Enlist(order);
      QueueUp(order, handle);
    }

    method QueueUp(order: Order, handle: nat)
      requires Enlisted(order, handle) && instrument.IsValidPrice(order.price)
      modifies this`book, this`form, pool`nodes, Levels(order.side)
      ensures Structured(order.side, NPOS) && book == Rested(old(book), order)
    {
      hide Spells, Joined, Levels, Linked, OnlyLinksOf, Shape.Levels, Shape.Queues, OrderPool.Valid,
           PriceLadder.Valid, PriceLadder.Marks, FlatHashMap.Valid, FlatHashMap.Sound, FlatHashMap.Contents,
           Instrument.IsValidPrice, Instrument.LadderBase, Instrument.TickCount, Matching.Place, Lookup;
      ghost var side := order.side;
      var l := Levels(order.side);
      ghost var m := Levels(side.Opposite());
      ghost var s, b := form.(nodes := pool.nodes), book;
      OtherNodes(form, pool.nodes, side);
      OtherNodes(form, pool.nodes, side.Opposite());
      SpellsLevels(s, b, side);
      ghost var tick := ValidPriceHasTick(instrument, order.price);
      assert l.Valid() && l.Marks(NPOS) && m.Valid() && m.Marks(NPOS) && l.base == instrument.LadderBase()
             && l.tick == instrument.tickSize;
      assert |l.levels| == instrument.TickCount() && l.PriceAt(tick) == order.price;
      var t := l.Open(order.price);
      assert m.Valid() && m.Marks(NPOS);
      ghost var q := l.queues[t];
      assert handle !in q;
      var level := PushBack(pool, l.levels[t], handle, q);
      assert l.Valid() && l.Marks(t) && m.Valid() && m.Marks(NPOS) && index.Valid() && index.Sound()
             && index.Contents() == s.idx[order.id := handle];
      SpellsJoin(s, b, side, t, handle, pool.nodes, level);
      l.Store(t, level, q + [handle], t);
      assert m.Valid() && m.Marks(NPOS) && pool.Valid() && index.Valid() && index.Sound()
             && index.Contents() == s.idx[order.id := handle];
      form := Joined(s, side, t, handle, pool.nodes, level);
      book := Rested(b, order);
      l.MarksFull(t);
      assert ReflectsSide(side) && ReflectsSide(side.Opposite());
      assert LadderOk(side, NPOS) && LadderOk(side.Opposite(), NPOS);
      assert Reflects();
    }

    /** A slab with no free node is no larger than the book. */
    lemma Room()
      requires Reflects() && Spells(form, book) && |book.bids| + |book.asks| < NULL_HANDLE
      ensures pool.free == [] ==> |pool.nodes| < NULL_HANDLE
    {
      hide Spells;
      if pool.free == [] {
        AllLiveBound(form, book);
      }
    }

    /** A book never holds more orders than a slab has handles. */
    lemma NeverTooLarge()
      requires Valid()
      ensures |book.bids| + |book.asks| <= NULL_HANDLE
    {
      hide BookOk, Spells, PriceLadder.Valid, PriceLadder.Marks, FlatHashMap.Valid, FlatHashMap.Sound, Shape.Ok;
      BookFitsSlab(form, book);
    }

    // ----- matching

    /** Tick `t` is the one the aggressor meets next, and holds an order. */
    ghost predicate Meets(side: Side, t: nat)
      reads this
    {
      && t < |form.Queues(side)| && form.Queues(side)[t] != []
      && Leads(form.Queues(side), side.Buy?, t)
    }

    /** What the matching loop holds while it works on tick `t`. */
    ghost predicate AtWork(side: Side, t: nat, s: MatchState)
      reads this, pool, bids, asks, index
    {
      && Structured(side, t) && BookOk(book)
      && s.queue == book.Queue(side) && s.nextTradeId == nextTradeId
      && s.incoming.side == side.Opposite() && s.incoming.remaining <= s.incoming.quantity
    }

    /** The head of the tick being worked on is the front of the resting side. */
    lemma FrontSeat(side: Side, t: nat)
      requires Structured(side, t) && Meets(side, t)
      ensures var l := Levels(side);
              && t < |l.levels| && l.levels[t].head < |pool.nodes| && form.nodes == pool.nodes
              && SeatAt(form, side, t, 0, l.levels[t].head) && Standing(form, side, t, 0) == 0
              && form.Queues(side)[t][0] == l.levels[t].head
              && book.Queue(side) != [] && book.Queue(side)[0] == pool.nodes[l.levels[t].head].order
              && l.PriceAt(t) == book.Queue(side)[0].price
    {
      hide Spells, Standing, OrderPool.Valid, PriceLadder.Valid, FlatHashMap.Valid, FlatHashMap.Sound;
      LeadingFront(form, book, side, t);
      SpellsLevels(form, book, side);
    }

    method TakeTradeId(ghost side: Side, ghost t: nat) returns (id: nat)
      requires Structured(side, t)
      modifies this`nextTradeId, this`book
      ensures Structured(side, t) && id == old(nextTradeId) && nextTradeId == id + 1
      ensures book == old(book).(nextTradeId := nextTradeId)
    {
      hide Spells, OrderPool.Valid, PriceLadder.Valid, FlatHashMap.Valid, FlatHashMap.Sound;
      id := nextTradeId;
      nextTradeId := nextTradeId + 1;
      SpellsTradeId(form, book, nextTradeId);
      book := book.(nextTradeId := nextTradeId);
    }

    method Trade(side: Side, t: nat, order: Order, ghost s: MatchState) returns (incoming: Order, fill: Fill)
      requires AtWork(side, t, s) && Meets(side, t) && s.incoming == order && !Finished(s)
      requires !(PreventionActive(instrument.selfTradePolicy, order) && s.queue[0].account == order.account)
      modifies this`book, this`form, this`nextTradeId, pool, index, Levels(side)`levels, Levels(side)`queues
      ensures var u := Step(instrument, s);
              && AtWork(side, t, u) && book == During(old(book), order.side, u)
              && incoming == u.incoming && u.fills == s.fills + [fill]
              && u.withdrawals == s.withdrawals && u.stpCancelled == s.stpCancelled
      ensures |form.Queues(side)| == |old(form.Queues(side))| && Leads(form.Queues(side), side.Buy?, t)
    {
      hide Structured, BookOk, Spells, Shape.Queues, Standing, SeatAt, Levels;
      var l := Levels(side);
      ghost var b, u := book, Step(instrument, s);
      StructuredInstrument(side, t);
      FrontSeat(side, t);
      StepKeepsBook(b, order.side, s);
      var handle := l.levels[t].head;
      var resting := pool.nodes[handle].order;
      var quantity := Min(order.remaining, resting.remaining);
      incoming := order.(remaining := order.remaining - quantity);
      var left := resting.(remaining := resting.remaining - quantity);
      var price := l.PriceAt(t);
      Resize(side, t, handle, left, 0, t);
      var id := TakeTradeId(side, t);
      fill := Fill(id, instrument.id, price, quantity, incoming.id, left.id, incoming.account, left.account,
                   incoming.side, left.remaining == 0, incoming.acceptedAt);
      if left.remaining == 0 {
        FrontSeat(side, t);
        DropResting(side, t, handle, 0);
      }
      assert book == During(b, order.side, u);
    }

    /** The front of the queue belongs to the aggressor, and its policy decides. */
    method MeetOwn(side: Side, t: nat, order: Order, ghost s: MatchState)
      returns (incoming: Order, withdrawals: seq<Withdrawal>, stpCancelled: nat)
      requires AtWork(side, t, s) && Meets(side, t) && s.incoming == order && !Finished(s)
      requires PreventionActive(instrument.selfTradePolicy, order) && s.queue[0].account == order.account
      modifies this`book, this`form, pool, index, Levels(side)`levels, Levels(side)`queues
      ensures var u := Step(instrument, s);
              && AtWork(side, t, u) && book == During(old(book), order.side, u)
              && incoming == u.incoming && u.fills == s.fills
              && u.withdrawals == s.withdrawals + withdrawals && u.stpCancelled == s.stpCancelled + stpCancelled
      ensures |form.Queues(side)| == |old(form.Queues(side))| && Leads(form.Queues(side), side.Buy?, t)
    {
      hide Structured, BookOk, Spells, Shape.Queues, Standing, SeatAt, Levels;
      var l := Levels(side);
      ghost var b, u := book, Step(instrument, s);
      StructuredInstrument(side, t);
      FrontSeat(side, t);
      StepKeepsBook(b, order.side, s);
      QueueLive(b, side);
      incoming, withdrawals, stpCancelled := order, [], 0;
      var handle := l.levels[t].head;
      var resting := pool.nodes[handle].order;
      match instrument.selfTradePolicy {
        case CancelIncoming =>
          stpCancelled := incoming.remaining;
          incoming := incoming.(remaining := 0);
        case CancelResting =>
          withdrawals := [WithdrawalOf(resting, instrument.id, resting.remaining, true)];
          DropResting(side, t, handle, 0);
        case CancelBoth =>
          stpCancelled := incoming.remaining;
          incoming := incoming.(remaining := 0);
          withdrawals := [WithdrawalOf(resting, instrument.id, resting.remaining, true)];
          DropResting(side, t, handle, 0);
        case DecrementBoth =>
          incoming, withdrawals, stpCancelled := ShrinkBoth(side, t, order, s);
          return;
      }
      assert book == During(b, order.side, u);
    }

    /** Both orders give up what they have in common, without a trade. */
    method ShrinkBoth(side: Side, t: nat, order: Order, ghost s: MatchState)
      returns (incoming: Order, withdrawals: seq<Withdrawal>, stpCancelled: nat)
      requires AtWork(side, t, s) && Meets(side, t) && s.incoming == order && !Finished(s)
      requires PreventionActive(instrument.selfTradePolicy, order) && s.queue[0].account == order.account
      requires instrument.selfTradePolicy == DecrementBoth
      modifies this`book, this`form, pool, index, Levels(side)`levels, Levels(side)`queues
      ensures var u := Step(instrument, s);
              && AtWork(side, t, u) && book == During(old(book), order.side, u)
              && incoming == u.incoming && u.fills == s.fills
              && u.withdrawals == s.withdrawals + withdrawals && u.stpCancelled == s.stpCancelled + stpCancelled
      ensures |form.Queues(side)| == |old(form.Queues(side))| && Leads(form.Queues(side), side.Buy?, t)
    {
      hide Structured, BookOk, Spells, Shape.Queues, Standing, SeatAt, Levels;
      var l := Levels(side);
      ghost var b, u := book, Step(instrument, s);
      StructuredInstrument(side, t);
      FrontSeat(side, t);
      StepKeepsBook(b, order.side, s);
      QueueLive(b, side);
      var handle := l.levels[t].head;
      var resting := pool.nodes[handle].order;
      var overlap := Min(order.remaining, resting.remaining);
      incoming := order.(remaining := order.remaining - overlap, quantity := order.quantity - overlap);
      var left := resting.(remaining := resting.remaining - overlap, quantity := resting.quantity - overlap);
      Resize(side, t, handle, left, 0, t);
      stpCancelled := overlap;
      withdrawals := [WithdrawalOf(left, instrument.id, overlap, left.remaining == 0)];
      if left.remaining == 0 {
        FrontSeat(side, t);
        DropResting(side, t, handle, 0);
      }
      assert book == During(b, order.side, u);
    }

    lemma NothingResting(side: Side)
      requires Structured(side, NPOS) && Levels(side).occupied == 0
      ensures book.Queue(side) == []
    {
      hide Spells, OrderPool.Valid, FlatHashMap.Valid, FlatHashMap.Sound;
      Levels(side).NoMembers();
      NothingQueued(form, book, side);
    }

    lemma BestMeets(side: Side, t: nat)
      requires Structured(side, NPOS) && Levels(side).Has(t)
      requires forall u: nat :: Levels(side).Has(u) ==> u == t || Before(side.Buy?, t, u)
      ensures Structured(side, t) && Meets(side, t)
    {
      hide Spells, OrderPool.Valid, FlatHashMap.Valid, FlatHashMap.Sound;
      SpellsLevels(form, book, side);
      Levels(side).MarksOpen(t);
    }

    lemma HeadTells(side: Side, t: nat)
      requires Structured(side, t) && t < |form.Queues(side)|
      ensures t < |Levels(side).levels| && (Levels(side).levels[t].head == NULL_HANDLE <==> form.Queues(side)[t] == [])
    {
      hide Spells, OrderPool.Valid, FlatHashMap.Valid, FlatHashMap.Sound, PriceLadder.Valid, Linked;
      SpellsLevels(form, book, side);
      LinkedEmpty(pool.nodes, Levels(side).levels[t], Levels(side).queues[t]);
    }

    /** One turn of the loop: the front of the queue is met, or traded with. */
    method Turn(side: Side, t: nat, order: Order, preventionActive: bool, ghost s: MatchState)
      returns (incoming: Order, fills: seq<Fill>, withdrawals: seq<Withdrawal>, stpCancelled: nat)
      requires AtWork(side, t, s) && Meets(side, t) && s.incoming == order && !Finished(s)
      requires preventionActive == PreventionActive(instrument.selfTradePolicy, order)
      modifies this`book, this`form, this`nextTradeId, pool, index, Levels(side)`levels, Levels(side)`queues
      ensures var u := Step(instrument, s);
              && AtWork(side, t, u) && book == During(old(book), order.side, u)
              && incoming == u.incoming && u.fills == s.fills + fills
              && u.withdrawals == s.withdrawals + withdrawals && u.stpCancelled == s.stpCancelled + stpCancelled
      ensures |form.Queues(side)| == |old(form.Queues(side))| && Leads(form.Queues(side), side.Buy?, t)
    {
      hide Structured, BookOk, Spells, Step, Leads, Shape.Queues, Levels;
      FrontSeat(side, t);
      fills, withdrawals, stpCancelled := [], [], 0;
      if preventionActive && pool.nodes[Levels(side).levels[t].head].order.account == order.account {
        incoming, withdrawals, stpCancelled := MeetOwn(side, t, order, s);
      } else {
        var fill;
        incoming, fill := Trade(side, t, order, s);
        fills := [fill];
      }
    }

    /** The inner loop: works through one price until the aggressor or the level is spent. */
    method MatchLevel(side: Side, t: nat, order: Order, ghost s: MatchState, ghost s0: MatchState)
      returns (incoming: Order, fills: seq<Fill>, withdrawals: seq<Withdrawal>, stpCancelled: nat,
               ghost end: MatchState)
      requires AtWork(side, t, s) && Meets(side, t) && s.incoming == order && !Finished(s) && Conserved(s0, s)
      modifies this`book, this`form, this`nextTradeId, pool, index, Levels(side)`levels, Levels(side)`queues
      ensures AtWork(side, t, end) && t < |form.Queues(side)| && book == During(old(book), order.side, end)
      ensures Run(instrument, end) == Run(instrument, s) && Measure(end) < Measure(s) && Conserved(s0, end)
      ensures incoming == end.incoming && end.fills == s.fills + fills
      ensures end.withdrawals == s.withdrawals + withdrawals && end.stpCancelled == s.stpCancelled + stpCancelled
    {
      hide Structured, BookOk, Spells, Step, Run, Measure, Conserved, Leads, Shape.Queues, Levels, Standing, SeatAt,
           FillTotal, Live;
      var l := Levels(side);
      var preventionActive := instrument.selfTradePolicy != Allow && ValidId(order.account);
      incoming, fills, withdrawals, stpCancelled := order, [], [], 0;
      end := s;
      StructuredInstrument(side, t);
      FrontSeat(side, t);
      HeadTells(side, t);
      ConservedSizes(s0, s);
      while incoming.remaining > 0 && l.levels[t].head != NULL_HANDLE
        invariant AtWork(side, t, end) && t < |form.Queues(side)| && Leads(form.Queues(side), side.Buy?, t)
        invariant t < |l.levels| && (l.levels[t].head == NULL_HANDLE <==> form.Queues(side)[t] == [])
        invariant book == During(old(book), order.side, end)
        invariant incoming == end.incoming && end.fills == s.fills + fills
        invariant end.withdrawals == s.withdrawals + withdrawals && end.stpCancelled == s.stpCancelled + stpCancelled
        invariant Run(instrument, end) == Run(instrument, s) && Conserved(s0, end)
        invariant if end == s then form.Queues(side)[t] != [] else Measure(end) < Measure(s)
        invariant Crosses(incoming, l.PriceAt(t))
        decreases Measure(end)
      {
        FrontSeat(side, t);
        QueueLive(book, side);
        ConservedSizes(s0, end);
        StepsOn(instrument, s0, end);
        var fs, ws, cancelled;
        incoming, fs, ws, cancelled := Turn(side, t, incoming, preventionActive, end);
        fills, withdrawals, stpCancelled := fills + fs, withdrawals + ws, stpCancelled + cancelled;
        end := Step(instrument, end);
        HeadTells(side, t);
      }
    }

    method Match(side: Side, order: Order)
      returns (incoming: Order, fills: seq<Fill>, withdrawals: seq<Withdrawal>, stpCancelled: nat)
      requires Structured(side, NPOS) && BookOk(book) && order.side == side.Opposite()
               && order.remaining <= order.quantity
      modifies this`book, this`form, this`nextTradeId, pool, index, Levels(side)
      ensures Structured(side, NPOS) && BookOk(book) && book == Matched(old(book), order)
      ensures var m := Run(instrument, Start(old(book), order));
              incoming == m.incoming && fills == m.fills && withdrawals == m.withdrawals
              && stpCancelled == m.stpCancelled
    {
      hide Structured, BookOk, Spells, Step, Run, Conserved, Leads, Shape.Queues;
      var l := Levels(side);
      incoming, fills, withdrawals, stpCancelled := order, [], [], 0;
      ghost var s := Start(book, order);
      ghost var s0, b0 := s, book;
      StartConserved(s0);
      StructuredInstrument(side, NPOS);
      while incoming.remaining > 0 && l.occupied != 0
        invariant Structured(side, NPOS) && BookOk(book) && book == During(b0, order.side, s)
        invariant incoming == s.incoming && fills == s.fills && withdrawals == s.withdrawals
                  && stpCancelled == s.stpCancelled
        invariant Run(instrument, s) == Run(instrument, s0) && Conserved(s0, s)
        decreases Measure(s)
      {
        StructuredInstrument(side, NPOS);
        ConservedSizes(s0, s);
        LadderFacts(side, NPOS);
        var t := l.BestOccupied();
        BestMeets(side, t);
        FrontSeat(side, t);
        if !Crosses(incoming, l.PriceAt(t)) {
          break;
        }
        var fs, ws, cancelled;
        ghost var end;
        incoming, fs, ws, cancelled, end := MatchLevel(side, t, incoming, s, s0);
        fills, withdrawals, stpCancelled := fills + fs, withdrawals + ws, stpCancelled + cancelled;
        s := end;
        CloseIfEmpty(side, t);
      }
      if l.occupied == 0 {
        NothingResting(side);
      }
      RunDone(instrument, s);
    }

    lemma LadderFacts(side: Side, open: int)
      requires Structured(side, open)
      ensures Levels(side).Valid() && Levels(side).descending == side.Buy?
    {
      hide Spells, PriceLadder.Valid, OrderPool.Valid, FlatHashMap.Valid, FlatHashMap.Sound;
    }

    // ----- reading the book

    /** Tick `t` is a tick with a queue, or the walk is over. */
    ghost predicate OnTick(side: Side, t: int)
      reads this
    {
      t == NPOS || (0 <= t < |form.Queues(side)| && form.Queues(side)[t] != [])
    }

    method FirstTick(side: Side) returns (t: int)
      requires Structured(side, NPOS)
      ensures OnTick(side, t) && book.Queue(side) == From(form, side, t, 0)
    {
      hide Spells, PriceLadder.Valid, OrderPool.Valid, FlatHashMap.Valid, FlatHashMap.Sound, PriceLadder.Marks, From,
           Leads, Structured;
      LadderFacts(side, NPOS);
      t := Levels(side).BestOccupied();
      if t == NPOS {
        NothingResting(side);
        FromNowhere(form, side);
      } else {
        BestMeets(side, t);
        SpelledOut(side, t);
        FromFirst(form, book, side, t);
      }
    }

    lemma SpelledOut(side: Side, t: int)
      requires Structured(side, t)
      ensures Spells(form, book) && form.Ok() && form.inst == instrument && form.nodes == pool.nodes
              && ReflectsSide(side)
      ensures Levels(side).base == instrument.LadderBase() && Levels(side).tick == instrument.tickSize
      ensures |form.Levels(side)| == |form.Queues(side)|
    {
      hide PriceLadder.Valid, OrderPool.Valid, FlatHashMap.Valid, FlatHashMap.Sound, Shape.Ok;
      SpellsLevels(form, book, side);
    }

    lemma NextAdjacent(side: Side, t: nat, n: int)
      requires Structured(side, NPOS) && t < |form.Queues(side)|
      requires n == NPOS || (n >= 0 && Levels(side).Has(n) && Before(side.Buy?, t, n))
      requires forall u: nat :: Levels(side).Has(u) && Before(side.Buy?, t, u) ==>
               n != NPOS && (u == n || Before(side.Buy?, n, u))
      ensures OnTick(side, n) && Adjacent(form.Queues(side), side.Buy?, t, n)
    {
      hide Spells, OrderPool.Valid, FlatHashMap.Valid, FlatHashMap.Sound;
      SpellsLevels(form, book, side);
    }

    method NextTick(side: Side, t: nat) returns (n: int)
      requires Structured(side, NPOS) && t < |form.Queues(side)|
      ensures OnTick(side, n) && From(form, side, t, |form.Queues(side)[t]|) == From(form, side, n, 0)
      ensures n != NPOS ==> Before(side.Buy?, t, n)
    {
      hide Spells, PriceLadder.Valid, OrderPool.Valid, FlatHashMap.Valid, FlatHashMap.Sound, PriceLadder.Marks, From,
           Structured, Shape.Ok;
      LadderFacts(side, NPOS);
      SpelledOut(side, NPOS);
      SpellsLevels(form, book, side);
      LadderSize(side);
      n := Levels(side).NextOccupied(t);
      NextAdjacent(side, t, n);
      FromNext(form, side, t, n);
    }

    lemma LadderSize(side: Side)
      requires Structured(side, NPOS)
      ensures |Levels(side).levels| == |form.Queues(side)|
    {
      hide Spells, OrderPool.Valid, FlatHashMap.Valid, FlatHashMap.Sound, PriceLadder.Valid;
      SpellsLevels(form, book, side);
    }

    ghost function TicksLeft(side: Side, t: int): nat
      reads this
    {
      if 0 <= t < |form.Queues(side)| then if side.Buy? then t + 1 else |form.Queues(side)| - t else 0
    }

    /** What an aggressor will fill when nothing can come between it and the book:
        level totals, counted no further than what is needed. */
    method FillableTotals(side: Side, order: Order) returns (available: nat)
      requires Structured(side, NPOS) && order.side == side.Opposite()
      ensures Min(order.remaining, available) == Min(order.remaining, Reachable(book.Queue(side), order))
    {
      hide Spells, Structured, From, Reachable, Total, Shape.Ok, Linked;
      SpelledOut(side, NPOS);
      available := 0;
      var t := FirstTick(side);
      while t != NPOS
        invariant OnTick(side, t)
        invariant Reachable(book.Queue(side), order) == available + Reachable(From(form, side, t, 0), order)
        decreases TicksLeft(side, t)
      {
        FromTick(form, side, t);
        FromHead(form, side, t, 0);
        ghost var os, rest := OrdersAt(form.nodes, form.Queues(side)[t]), From(form, side, t, |form.Queues(side)[t]|);
        if !Crosses(order, Levels(side).PriceAt(t)) {
          NotReachable(From(form, side, t, 0), order);
          return;
        }
        ReachableLevel(os, rest, order);
        LinkedTotal(form.nodes, form.Levels(side)[t], form.Queues(side)[t]);
        available := available + Levels(side).levels[t].total;
        if available >= order.remaining {
          return;
        }
        t := NextTick(side, t);
      }
      FromNowhere(form, side);
      ReachableNothing(order);
    }

    /** The same under prevention, where resting size and fill size come apart:
        simulates what matching would do, order by order. */
    method FillableAvoidingSelf(side: Side, order: Order) returns (willFill: nat)
      requires Structured(side, NPOS) && order.side == side.Opposite()
      requires PreventionActive(instrument.selfTradePolicy, order)
      ensures willFill == Predict(instrument, book.Queue(side), order, order.remaining)
    {
      hide Spells, Structured, From, Predict, Shape.Ok, Linked;
      SpelledOut(side, NPOS);
      ghost var goal := Predict(instrument, book.Queue(side), order, order.remaining);
      var unallocated: nat := order.remaining;
      willFill := 0;
      var t := FirstTick(side);
      while t != NPOS
        invariant OnTick(side, t)
        invariant goal == willFill + Predict(instrument, From(form, side, t, 0), order, unallocated)
        decreases TicksLeft(side, t)
      {
        FromHead(form, side, t, 0);
        if !Crosses(order, Levels(side).PriceAt(t)) {
          PredictStops(instrument, From(form, side, t, 0), order, unallocated);
          return;
        }
        ghost var q := form.Queues(side)[t];
        ShapeLinked(form, side, t);
        LinkedEmpty(form.nodes, form.Levels(side)[t], q);
        ghost var i := 0;
        var handle := Levels(side).levels[t].head;
        while handle != NULL_HANDLE
          invariant i <= |q| && handle == At(q, i) && (handle == NULL_HANDLE <==> i == |q|)
          invariant goal == willFill + Predict(instrument, From(form, side, t, i), order, unallocated)
          decreases |q| - i
        {
          FromHead(form, side, t, i);
          var resting := pool.nodes[handle].order;
          PredictNext(instrument, resting, From(form, side, t, i + 1), order, unallocated);
          PredictSpent(instrument, From(form, side, t, i + 1), order);
          if resting.account == order.account {
            match instrument.selfTradePolicy {
              case CancelIncoming => return;
              case CancelBoth => return;
              case CancelResting =>
              case DecrementBoth =>
                unallocated := unallocated - Min(unallocated, resting.remaining);
                if unallocated == 0 {
                  return;
                }
            }
          } else {
            var traded := Min(unallocated, resting.remaining);
            willFill := willFill + traded;
            unallocated := unallocated - traded;
            if unallocated == 0 {
              return;
            }
          }
          i := i + 1;
          handle := pool.nodes[handle].next;
          QueueEnd(form, side, t, i);
        }
        t := NextTick(side, t);
      }
      FromNowhere(form, side);
      PredictStops(instrument, [], order, unallocated);
    }

    /** The quantity an aggressor will actually fill, decided before anything moves. */
    method Fillable(side: Side, order: Order) returns (available: nat)
      requires Structured(side, NPOS) && BookOk(book) && order.side == side.Opposite()
               && order.remaining <= order.quantity
      ensures Min(order.remaining, available) == FillTotal(Run(instrument, Start(book, order)).fills)
    {
      hide Structured, BookOk, Predict, Run, Reachable, Spells;
      StructuredInstrument(side, NPOS);
      QueueLive(book, side);
      PredictExact(instrument, Start(book, order));
      if PreventionActive(instrument.selfTradePolicy, order) {
        PredictBound(instrument, book.Queue(side), order, order.remaining);
        available := FillableAvoidingSelf(side, order);
      } else {
        PredictUnprevented(instrument, book.Queue(side), order, order.remaining);
        available := FillableTotals(side, order);
      }
    }

    // ----- views

    /** One side in matching order: level by level, each queue from the front. */
    method RestingSide(side: Side) returns (out: seq<Order>)
      requires Structured(side, NPOS)
      ensures out == book.Queue(side)
    {
      hide Spells, Structured, From, Shape.Ok, Linked;
      SpelledOut(side, NPOS);
      ghost var goal := book.Queue(side);
      out := [];
      var t := FirstTick(side);
      while t != NPOS
        invariant OnTick(side, t)
        invariant goal == out + From(form, side, t, 0)
        decreases TicksLeft(side, t)
      {
        ghost var q := form.Queues(side)[t];
        ShapeLinked(form, side, t);
        LinkedEmpty(form.nodes, form.Levels(side)[t], q);
        ghost var i := 0;
        var handle := Levels(side).levels[t].head;
        while handle != NULL_HANDLE
          invariant i <= |q| && handle == At(q, i) && (handle == NULL_HANDLE <==> i == |q|)
          invariant goal == out + From(form, side, t, i)
          decreases |q| - i
        {
          FromHead(form, side, t, i);
          MovedOver(out, pool.nodes[handle].order, From(form, side, t, i + 1));
          out := out + [pool.nodes[handle].order];
          i := i + 1;
          handle := pool.nodes[handle].next;
          QueueEnd(form, side, t, i);
        }
        t := NextTick(side, t);
      }
      FromNowhere(form, side);
    }

    method RestingOrders() returns (out: seq<Order>)
      requires Valid()
      ensures out == book.bids + book.asks
    {
      hide Structured, Spells, BookOk;
      EitherSide(Sell);
      out := RestingSide(Buy);
      var asks := RestingSide(Sell);
      out := out + asks;
    }

    /** A level and what comes after it, as the market sees them. */
    lemma LevelEntry(side: Side, t: nat, n: int)
      requires Structured(side, NPOS) && t < |form.Queues(side)| && form.Queues(side)[t] != [] && OnTick(side, n)
      requires From(form, side, t, |form.Queues(side)[t]|) == From(form, side, n, 0) && n != t
      ensures t < |Levels(side).levels|
      ensures Aggregate(From(form, side, t, 0)) ==
              [DepthLevel(Levels(side).PriceAt(t), Levels(side).levels[t].total, Levels(side).levels[t].count)]
              + Aggregate(From(form, side, n, 0))
    {
      hide Structured, Spells, From, Shape.Ok, Aggregate;
      SpelledOut(side, NPOS);
      StructuredInstrument(side, NPOS);
      ShapeEntry(form, side, t, n);
    }

    /** The best `maxLevels` prices of a side, read off the totals the levels keep. */
    method Depth(side: Side, maxLevels: nat) returns (out: seq<DepthLevel>)
      requires Valid()
      ensures out == Foremost(Aggregate(book.Queue(side)), maxLevels)
    {
      hide Spells, Structured, From, Shape.Ok, Linked, BookOk, Aggregate, Total;
      EitherSide(side);
      SpelledOut(side, NPOS);
      StructuredInstrument(side, NPOS);
      out := [];
      var t := FirstTick(side);
      while t != NPOS && |out| < maxLevels
        invariant OnTick(side, t) && |out| <= maxLevels
        invariant Aggregate(book.Queue(side)) == out + Aggregate(From(form, side, t, 0))
        decreases TicksLeft(side, t)
      {
        var entry := DepthLevel(Levels(side).PriceAt(t), Levels(side).levels[t].total, Levels(side).levels[t].count);
        var n := NextTick(side, t);
        LevelEntry(side, t, n);
        MovedOver(out, entry, Aggregate(From(form, side, n, 0)));
        out := out + [entry];
        t := n;
      }
      FromNowhere(form, side);
      AggregateHead([]);
    }

    // ----- commands

    lemma EitherSide(side: Side)
      ensures Structured(Buy, NPOS) <==> Structured(side, NPOS)
    {
      hide Spells, PriceLadder.Valid, OrderPool.Valid, FlatHashMap.Valid, FlatHashMap.Sound, PriceLadder.Marks;
    }

    method Find(id: nat) returns (found: Option<Order>)
      requires Valid()
      ensures found == book.Find(id)
    {
      hide Spells, PriceLadder.Valid, OrderPool.Valid, FlatHashMap.Valid, FlatHashMap.Sound, BookOk, Lookup;
      IndexTells(form, book, id);
      var present, handle := index.Find(id);
      found := if present then Some(pool.nodes[handle].order) else None;
    }

    /** Where the index says an order is: its tick, and its place in that queue. */
    method Locate(handle: nat, side: Side) returns (t: nat, ghost k: nat)
      requires Structured(side, NPOS) && handle in form.tickOf && handle < |pool.nodes|
               && pool.nodes[handle].order.side == side
      ensures SeatAt(form, side, t, k, handle)
    {
      hide Spells, Shape.Ok, Seated, PriceLadder.Valid, OrderPool.Valid, FlatHashMap.Valid, FlatHashMap.Sound,
           Structured;
      SpelledOut(side, NPOS);
      LadderFacts(side, NPOS);
      k := LiveIsSeated(form, handle);
      SpellsLevels(form, book, side);
      QueuedSeat(form, side, form.tickOf[handle], k);
      var index := Levels(side).IndexOf(pool.nodes[handle].order.price);
      assert Levels(side).PriceAt(form.tickOf[handle]) == pool.nodes[handle].order.price;
      t := index;
    }

    method Cancel(id: nat) returns (result: CancelResult)
      requires Valid()
      modifies Repr()
      ensures var e := Matching.Cancel(old(book), id);
              Valid() && book == e.book && result == e.result
    {
      hide Structured, Spells, BookOk, Lookup, Matching.Without, Standing, SeatAt, Shape.Queues;
      SpelledOut(Buy, NPOS);
      IndexFacts(Buy);
      IndexTells(form, book, id);
      var present, handle := index.Find(id);
      if !present {
        return CancelResult(UnknownOrder, None);
      }
      SpellsIndexed(form, book, id);
      var order := pool.nodes[handle].order;
      result := CancelResult(Accepted, Some(order));
      Withdraw(id, handle);
    }

    /** Takes a resting order off the book, and its level with it when it was the last. */
    method Withdraw(ghost id: nat, handle: nat)
      requires Valid() && handle in form.tickOf && handle < |pool.nodes|
               && book.Find(id) == Some(pool.nodes[handle].order)
      modifies Repr()
      ensures Valid() && book == RemoveOrder(old(book), old(pool.nodes[handle].order))
    {
      hide Structured, Spells, BookOk, Lookup, Matching.Without, Standing, SeatAt, Shape.Queues;
      var order := pool.nodes[handle].order;
      var side := order.side;
      EitherSide(side);
      ghost var b := book;
      RemoveKeepsBook(b, id);
      ghost var at := FindLocates(b, id);
      var t, k := Locate(handle, side);
      OpenSeat(side, t, k, handle);
      DropResting(side, t, handle, k);
      BookOkBySideUnique(b, side);
      EditAtUnique(b.Queue(side), order, Standing(old(form), side, t, k));
      CloseIfEmpty(side, t);
      EitherSide(side);
    }

    lemma OpenSeat(side: Side, t: nat, k: nat, handle: nat)
      requires Structured(side, NPOS) && SeatAt(form, side, t, k, handle)
      ensures Structured(side, t) && t < |form.Queues(side)|
      ensures Standing(form, side, t, k) < |book.Queue(side)|
              && book.Queue(side)[Standing(form, side, t, k)] == pool.nodes[handle].order
    {
      hide Spells, OrderPool.Valid, FlatHashMap.Valid, FlatHashMap.Sound, PriceLadder.Valid, Standing;
      SpellsSeat(form, book, side, t, k, handle);
      Levels(side).MarksOpen(t);
    }

    lemma IndexFacts(side: Side)
      requires Structured(side, NPOS)
      ensures index.Valid() && index.Sound() && form.idx == index.Contents() && form.nodes == pool.nodes
    {
      hide Spells, OrderPool.Valid, FlatHashMap.Valid, FlatHashMap.Sound, PriceLadder.Valid;
    }

    method WouldCross(order: Order) returns (crosses: bool)
      requires Valid()
      ensures crosses == Matching.WouldCross(book, order)
    {
      hide Structured, Spells, BookOk;
      if order.kind.Market? {
        return true;
      }
      var side := order.side.Opposite();
      EitherSide(side);
      LadderFacts(side, NPOS);
      var t := Levels(side).BestOccupied();
      if t == NPOS {
        NothingResting(side);
        return false;
      }
      BestMeets(side, t);
      FrontSeat(side, t);
      var best := Levels(side).PriceAt(t);
      crosses := if order.side.Buy? then order.price >= best else order.price <= best;
    }

    /** Every check that can turn an order away before anything is changed. */
    method Admit(order: Order) returns (reject: RejectReason)
      requires Valid() && order.remaining <= order.quantity
      ensures reject == Admission(book, order)
    {
      hide Structured, Spells, BookOk, Lookup, Run, Instrument.IsValidPrice, Instrument.IsValidQuantity;
      StructuredInstrument(Buy, NPOS);
      if order.instrument != instrument.id {
        return UnknownInstrument;
      }
      if !instrument.IsValidQuantity(order.quantity) {
        return InvalidQuantity;
      }
      if order.kind.Limit? && !instrument.IsValidPrice(order.price) {
        return InvalidPrice;
      }
      var existing := Find(order.id);
      if existing.Some? {
        return DuplicateOrderId;
      }
      if order.postOnly {
        var crosses := WouldCross(order);
        if crosses {
          return PostOnlyWouldCross;
        }
      }
      if order.tif.FillOrKill? {
        var side := order.side.Opposite();
        EitherSide(side);
        var available := Fillable(side, order);
        if available < order.remaining {
          return FillOrKillUnfillable;
        }
      }
      reject := Accepted;
    }

    /** Matches an order whose remainder is what it asks to trade, and rests what is left. */
    method Insert(original: Order) returns (result: SubmitResult, fills: seq<Fill>, withdrawals: seq<Withdrawal>)
      requires Valid() && Fresh(book, original.sequence) && original.remaining <= original.quantity
      requires |book.bids| + |book.asks| < NULL_HANDLE
      modifies Repr()
      ensures var e := Matching.Insert(old(book), original);
              Valid() && book == e.book && result == e.result && fills == e.fills && withdrawals == e.withdrawals
    {
      hide Structured, Spells, BookOk, Lookup, Run, Fresh, Admission, Instrument.IsValidPrice, Matching.Place;
      StructuredInstrument(Buy, NPOS);
      ghost var b := book;
      InsertKeepsBook(b, original);
      var reject := Admit(original);
      if reject != Accepted {
        return SubmitResult(reject, 0, 0, false), [], [];
      }
      var order, stpCancelled := original, 0;
      var side := order.side.Opposite();
      EitherSide(side);
      order, fills, withdrawals, stpCancelled := Match(side, order);
      EitherSide(side);
      EitherSide(original.side);
      MatchedIncoming(b, original);
      MatchedTotals(b, original);
      result := SubmitResult(Accepted, original.remaining - order.remaining - stpCancelled, stpCancelled, false);
      if order.remaining == 0 {
        return;
      }
      if order.kind.Market? || order.tif.ImmediateOrCancel? {
        return;
      }
      LeftoverFits(b, original);
      Rest(order);
      EitherSide(original.side);
      result := result.(rested := true);
    }

    method Submit(order: Order) returns (result: SubmitResult, fills: seq<Fill>, withdrawals: seq<Withdrawal>)
      requires Valid() && Fresh(book, order.sequence) && |book.bids| + |book.asks| < NULL_HANDLE
      modifies Repr()
      ensures var e := Matching.Submit(old(book), order);
              Valid() && book == e.book && result == e.result && fills == e.fills && withdrawals == e.withdrawals
    {
      hide Structured, Spells, BookOk, Fresh, Matching.Insert;
      result, fills, withdrawals := Insert(order.(remaining := order.quantity));
    }

    method Replace(id: nat, newPrice: int, newQuantity: nat, sequence: nat, now: int)
      returns (result: ReplaceResult, fills: seq<Fill>, withdrawals: seq<Withdrawal>)
      requires Valid() && Fresh(book, sequence)
      modifies Repr()
      ensures var e := Matching.Replace(old(book), id, newPrice, newQuantity, sequence, now);
              Valid() && book == e.book && result == e.result && fills == e.fills && withdrawals == e.withdrawals
    {
      hide Structured, Spells, BookOk, Lookup, Fresh, Matching.Replace, Book.Find, Shape.Ok, FlatHashMap.Valid,
           FlatHashMap.Sound, FlatHashMap.Contents;
      StructuredInstrument(Buy, NPOS);
      SpelledOut(Buy, NPOS);
      IndexFacts(Buy);
      IndexTells(form, book, id);
      var present, handle := index.Find(id);
      if !present {
        ReplaceUnknown(book, id, newPrice, newQuantity, sequence, now);
        return ReplaceResult(UnknownOrder, false, None, 0, 0, false), [], [];
      }
      SpellsIndexed(form, book, id);
      result, fills, withdrawals := ReplaceFound(id, handle, newPrice, newQuantity, sequence, now);
    }

    /** A replace of an order that is on the book. */
    method ReplaceFound(id: nat, handle: nat, newPrice: int, newQuantity: nat, sequence: nat, now: int)
      returns (result: ReplaceResult, fills: seq<Fill>, withdrawals: seq<Withdrawal>)
      requires Valid() && handle in form.tickOf && handle < |pool.nodes|
               && book.Find(id) == Some(pool.nodes[handle].order)
      requires Fresh(book, sequence) && book.instrument.WellFormed()
      modifies Repr()
      ensures var e := Matching.Replace(old(book), id, newPrice, newQuantity, sequence, now);
              Valid() && book == e.book && result == e.result && fills == e.fills && withdrawals == e.withdrawals
    {
      hide Structured, Spells, BookOk, Lookup, Fresh, Matching.Insert, Matching.Amend, Matching.Without,
           Instrument.IsValidPrice, Instrument.IsValidQuantity, Matching.Replace, Book.WithQueue, Book.Queue,
           Book.Find, RemoveOrder, Amended;
      StructuredInstrument(Buy, NPOS);
      ghost var b := book;
      var previous := pool.nodes[handle].order;
      result, fills, withdrawals := ReplaceResult(Accepted, false, Some(previous), 0, 0, false), [], [];
      if !instrument.IsValidPrice(newPrice) || !instrument.IsValidQuantity(newQuantity) {
        result := result.(reject := if !instrument.IsValidPrice(newPrice) then InvalidPrice else InvalidQuantity);
        ReplaceInvalid(b, id, newPrice, newQuantity, sequence, now);
      } else if newQuantity <= previous.Filled() {
        ReplaceRemoves(b, id, newPrice, newQuantity, sequence, now);
        Withdraw(id, handle);
      } else if newPrice == previous.price && newQuantity < previous.quantity {
        ReplaceReduces(b, id, newQuantity, sequence, now);
        Reduce(id, handle, newQuantity);
        result := result.(priorityRetained := true, rested := true);
      } else {
        ReplaceRequeues(b, id, newPrice, newQuantity, sequence, now);
        var resubmitted;
        resubmitted, fills, withdrawals := Requeue(id, handle, Amended(previous, newPrice, newQuantity, sequence, now));
        result := result.(reject := resubmitted.reject, filled := resubmitted.filled,
                          stpCancelled := resubmitted.stpCancelled, rested := resubmitted.rested);
      }
    }

    /** Takes an order out and submits it again on new terms, behind everything at its price. */
    method Requeue(id: nat, handle: nat, amended: Order)
      returns (result: SubmitResult, fills: seq<Fill>, withdrawals: seq<Withdrawal>)
      requires Valid() && handle in form.tickOf && handle < |pool.nodes|
               && book.Find(id) == Some(pool.nodes[handle].order)
      requires Fresh(book, amended.sequence) && amended.remaining <= amended.quantity
      modifies Repr()
      ensures var e := Matching.Insert(RemoveOrder(old(book), old(pool.nodes[handle].order)), amended);
              Valid() && book == e.book && result == e.result && fills == e.fills && withdrawals == e.withdrawals
    {
      hide Structured, Spells, BookOk, Lookup, Fresh, Matching.Without, Matching.Insert, Standing, SeatAt;
      RemoveKeepsBook(book, id);
      RemoveShrinks(book, id);
      NeverTooLarge();
      Withdraw(id, handle);
      result, fills, withdrawals := Insert(amended);
    }

    /** A reduction at the same price: the order shrinks where it stands. */
    method Reduce(ghost id: nat, handle: nat, newQuantity: nat)
      requires Valid() && handle in form.tickOf && handle < |pool.nodes|
               && book.Find(id) == Some(pool.nodes[handle].order)
      requires pool.nodes[handle].order.Filled() < newQuantity < pool.nodes[handle].order.quantity
      modifies Repr()
      ensures Valid()
      ensures var previous := old(pool.nodes[handle].order);
              var reduced := previous.(quantity := newQuantity, remaining := newQuantity - previous.Filled());
              book == old(book).WithQueue(previous.side, Amend(old(book).Queue(previous.side), reduced))
    {
      hide Structured, Spells, BookOk, Lookup, Matching.Amend, Standing, SeatAt;
      var previous := pool.nodes[handle].order;
      var side := previous.side;
      var reduced := previous.(quantity := newQuantity, remaining := newQuantity - previous.Filled());
      EitherSide(side);
      ghost var b := book;
      ghost var at := FindLocates(b, id);
      AmendKeepsBook(b, id, reduced);
      var t, k := Locate(handle, side);
      OpenSeat(side, t, k, handle);
      BookOkBySideUnique(b, side);
      EditAtUnique(b.Queue(side), reduced, Standing(form, side, t, k));
      Resize(side, t, handle, reduced, k, NPOS);
      EitherSide(side);
    }

    // ----- what the structure of a book comes to

    /** Index entries and live nodes are in one-to-one correspondence. */
    lemma IndexIsExact()
      requires Valid()
      ensures index.Sound()
      ensures forall id: nat :: id in index.Contents() ==>
                var h := index.Contents()[id]; pool.IsLive(h) && pool.nodes[h].order.id == id
      ensures forall h: nat :: pool.IsLive(h) ==>
                var id := pool.nodes[h].order.id; id in index.Contents() && index.Contents()[id] == h
    {
      hide Spells, OrderPool.Valid, FlatHashMap.Valid, FlatHashMap.Sound, FlatHashMap.Contents, PriceLadder.Valid,
           PriceLadder.Marks, BookOk;
      forall id: nat | id in form.idx ensures pool.IsLive(form.idx[id]) && pool.nodes[form.idx[id]].order.id == id {
        SpellsIndexed(form, book, id);
      }
      forall h: nat | pool.IsLive(h)
        ensures pool.nodes[h].order.id in form.idx && form.idx[pool.nodes[h].order.id] == h
      {
        var side, p := NodeInBook(form, book, h);
      }
    }

    /** Every live order stands in the queue of its side and price, once, and in no other. */
    lemma QueuedExactlyOnce(h: nat) returns (t: nat, k: nat)
      requires Valid() && pool.IsLive(h)
      ensures var o := pool.nodes[h].order;
              && t < |Levels(o.side).queues| && k < |Levels(o.side).queues[t]| && Levels(o.side).queues[t][k] == h
              && Levels(o.side).PriceAt(t) == o.price
              && forall side: Side, u: nat, j: nat ::
                   u < |Levels(side).queues| && j < |Levels(side).queues[u]| && Levels(side).queues[u][j] == h
                   ==> side == o.side && u == t && j == k
    {
      hide Structured, Spells, BookOk, Shape.Ok, PriceLadder.PriceAt;
      EitherSide(Buy);
      EitherSide(Sell);
      SpelledOut(Buy, NPOS);
      SpelledOut(Sell, NPOS);
      StructuredInstrument(Buy, NPOS);
      LiveIsHeld(h);
      t, k := OnlySeat(form, h);
      PricedAt(pool.nodes[h].order.side, t);
    }

    lemma LiveIsHeld(h: nat)
      requires Structured(Buy, NPOS)
      ensures pool.IsLive(h) <==> h in form.tickOf
    {
      hide Spells, OrderPool.Valid, FlatHashMap.Valid, FlatHashMap.Sound, PriceLadder.Valid, PriceLadder.Marks;
    }

    lemma PricedAt(side: Side, t: nat)
      requires Structured(side, NPOS) && t < |Levels(side).queues|
      ensures instrument.WellFormed() && Levels(side).PriceAt(t) == TickPrice(instrument, t)
    {
      hide Spells, OrderPool.Valid, FlatHashMap.Valid, FlatHashMap.Sound, PriceLadder.Valid, PriceLadder.Marks;
    }

    /** A bit is set exactly where something is queued, what is queued is live, and a level's total
        and count are those of its queue. */
    lemma LevelIsExact(side: Side, t: nat)
      requires Valid() && t < |Levels(side).queues|
      ensures var l, q := Levels(side), Levels(side).queues[t];
              && |l.levels| == |l.queues| && (l.Has(t) <==> q != [])
              && Linked(pool.nodes, l.levels[t], q) && InSlab(pool.nodes, q)
              && l.levels[t].total == Total(OrdersAt(pool.nodes, q)) && l.levels[t].count == |q|
              && forall i :: 0 <= i < |q| ==> pool.IsLive(q[i])
    {
      hide Structured, Spells, BookOk, Shape.Ok, Linked, Total;
      EitherSide(side);
      SpelledOut(side, NPOS);
      FromTick(form, side, t);
      LinkedTotal(form.nodes, form.Levels(side)[t], form.Queues(side)[t]);
      BitTells(side, t);
      forall i | 0 <= i < |form.Queues(side)[t]| ensures pool.IsLive(form.Queues(side)[t][i]) {
        QueuedSeat(form, side, t, i);
        LiveIsHeld(form.Queues(side)[t][i]);
      }
    }

    lemma BitTells(side: Side, t: nat)
      requires Structured(side, NPOS) && t < |Levels(side).queues|
      ensures Levels(side).Has(t) <==> Levels(side).queues[t] != []
    {
      hide Spells, OrderPool.Valid, FlatHashMap.Valid, FlatHashMap.Sound, PriceLadder.Valid, PriceLadder.Has;
    }

    lemma StructuredInstrument(side: Side, t: int)
      requires Structured(side, t)
      ensures book.instrument == instrument && instrument.WellFormed() && book.nextTradeId == nextTradeId
    {
      hide OrderPool.Valid, PriceLadder.Valid, FlatHashMap.Valid, FlatHashMap.Sound, Shape.Ok;
    }
  }

  lemma TickCountPositive(inst: Instrument)
    requires inst.WellFormed()
    ensures inst.TickCount() >= 1 && inst.LadderBase() <= inst.minPrice
  {
  }

  lemma EmptySpells(s: Shape)
    requires s.inst.WellFormed() && s.nodes == [] && s.tickOf == map[] && s.idx == map[]
    requires forall side :: |s.Levels(side)| == |s.Queues(side)| == s.inst.TickCount()
    requires forall side, t :: 0 <= t < |s.Queues(side)| ==> s.Levels(side)[t] == EMPTY_LEVEL && s.Queues(side)[t] == []
    ensures Spells(s, EmptyBook(s.inst)) && BookOk(EmptyBook(s.inst))
  {
    forall side ensures s.Fits(side) && AllInSlab(s.nodes, s.Queues(side)) && s.Orders(side) == [] {
      forall t | 0 <= t < |s.Queues(side)| ensures Linked(s.nodes, s.Levels(side)[t], s.Queues(side)[t]) {}
      FlattenEmpty(Ranked(s.nodes, s.Queues(side), side.Buy?));
    }
    assert s.Fits(Buy) && s.Fits(Sell);
  }

  lemma LinkedEmpty(nodes: seq<OrderNode>, level: PriceLevel, q: seq<nat>)
    requires Linked(nodes, level, q)
    ensures level.head == NULL_HANDLE <==> q == []
    ensures q == [] ==> level == EMPTY_LEVEL
    ensures q != [] ==> level.head == q[0]
  {
  }

  lemma PoolBound(pool: OrderPool)
    requires pool.Valid()
    ensures |pool.nodes| <= NULL_HANDLE
  {
  }

  /** A price the instrument accepts is the price of one of the ladder's ticks. */
  lemma ValidPriceHasTick(inst: Instrument, price: int) returns (t: nat)
    requires inst.WellFormed() && inst.IsValidPrice(price)
    ensures t < inst.TickCount() && TickPrice(inst, t) == price
  {
    var tick, first := inst.tickSize, inst.minPrice / inst.tickSize;
    t := TicksBetween(inst.minPrice, price, tick);
    assert inst.LadderBase() == first * tick;
    TicksFit(inst.maxPrice - first * tick, tick, t);
  }

  lemma TicksBetween(floor: int, price: int, tick: int) returns (t: nat)
    requires tick >= 1 && 1 <= floor <= price && price % tick == 0
    ensures (floor / tick) * tick + t * tick == price
  {
    var a, b := floor / tick, price / tick;
    assert price == b * tick;
    assert floor == a * tick + floor % tick;
    var n := a - b;
    assert n * tick == a * tick - b * tick;
    MultipleBound(n, tick);
    t := b - a;
    assert t * tick == b * tick - a * tick;
  }

  lemma TicksFit(span: int, tick: int, t: nat)
    requires tick >= 1 && t * tick <= span
    ensures t <= span / tick
  {
    var d := span / tick;
    assert span == d * tick + span % tick;
    var n := t - d;
    assert n * tick == t * tick - d * tick;
    MultipleBound(n, tick);
  }

  /** Every indexed identifier is on the book. */
  lemma IndexedIsFound(s: Shape, b: Book, id: nat)
    requires Spells(s, b) && id in s.idx
    ensures b.Find(id).Some?
  {
    hide Spells, Lookup;
    SpellsIndexed(s, b, id);
    var side, p := NodeInBook(s, b, s.idx[id]);
    FindBySide(b, side, id);
    var _ := LookupFinds(b.Queue(side), id);
  }

  lemma SpellsIndexed(s: Shape, b: Book, id: nat)
    requires Spells(s, b) && id in s.idx
    ensures s.idx[id] in s.tickOf && s.idx[id] < |s.nodes| && s.nodes[s.idx[id]].order.id == id
  {
    hide SideFits, SideOf, AllInSlab;
  }

  lemma SpellsAbsent(s: Shape, b: Book, id: nat)
    requires Spells(s, b) && b.Find(id).None?
    ensures id !in s.idx
  {
    hide Spells, Lookup;
    if id in s.idx {
      IndexedIsFound(s, b, id);
    }
  }

  lemma AllLiveBound(s: Shape, b: Book)
    requires Spells(s, b) && forall h: nat :: h < |s.nodes| ==> h in s.tickOf
    ensures |s.nodes| <= |b.bids| + |b.asks|
  {
    hide Shape.Ok, Spells;
    var ids := seq(|s.nodes|, i requires 0 <= i < |s.nodes| => s.nodes[i].order.id);
    var all := seq(|b.bids|, i requires 0 <= i < |b.bids| => b.bids[i].id)
        + seq(|b.asks|, i requires 0 <= i < |b.asks| => b.asks[i].id);
    forall h | 0 <= h < |s.nodes|
      ensures ids[h] in all && s.nodes[h].order.id in s.idx && s.idx[s.nodes[h].order.id] == h
    {
      var side, p := NodeInBook(s, b, h);
      if side.Buy? {
        assert all[p] == ids[h];
      } else {
        assert all[|b.bids| + p] == ids[h];
      }
    }
    Pigeonhole(ids, all);
  }

  /** Every order of a book has a node of its own. */
  lemma BookFitsSlab(s: Shape, b: Book)
    requires Spells(s, b) && BookOk(b)
    ensures |b.bids| + |b.asks| <= |s.nodes|
  {
    hide Spells, Shape.Ok;
    var all := b.bids + b.asks;
    forall i | 0 <= i < |all|
      ensures all[i].id in s.idx && s.idx[all[i].id] < |s.nodes| && s.nodes[s.idx[all[i].id]].order == all[i]
    {
      QueuedIsIndexed(s, b, if i < |b.bids| then Buy else Sell, if i < |b.bids| then i else i - |b.bids|);
    }
    var handles := seq(|all|, i requires 0 <= i < |all| => s.idx[all[i].id]);
    var numbers := seq(|s.nodes|, i => i);
    forall i, j | 0 <= i < j < |handles| ensures handles[i] != handles[j] {
      assert all[i].id != all[j].id;
    }
    forall i | 0 <= i < |handles| ensures handles[i] in numbers {
      assert numbers[handles[i]] == handles[i];
    }
    Pigeonhole(handles, numbers);
  }

  lemma NodeInBook(s: Shape, b: Book, h: nat) returns (side: Side, p: nat)
    requires Spells(s, b) && h in s.tickOf
    ensures h < |s.nodes| && p < |b.Queue(side)| && b.Queue(side)[p] == s.nodes[h].order
    ensures s.nodes[h].order.id in s.idx && s.idx[s.nodes[h].order.id] == h
  {
    hide SideFits, SideOf, AllInSlab;
    var k := LiveIsSeated(s, h);
    side := s.nodes[h].order.side;
    ShapeSlab(s, side);
    SpellsSeat(s, b, side, s.tickOf[h], k, h);
    p := Standing(s, side, s.tickOf[h], k);
  }

  lemma {:induction false} Pigeonhole(ids: seq<nat>, all: seq<nat>)
    requires Distinct(ids) && forall i :: 0 <= i < |ids| ==> ids[i] in all
    ensures |ids| <= |all|
  {
    if ids != [] {
      var n := |ids| - 1;
      var k :| 0 <= k < |all| && all[k] == ids[n];
      var rest := all[..k] + all[k + 1..];
      forall i | 0 <= i < n ensures ids[..n][i] in rest {
        var j :| 0 <= j < |all| && all[j] == ids[i];
        assert rest[if j < k then j else j - 1] == ids[i];
      }
      Pigeonhole(ids[..n], rest);
    }
  }

  lemma FromNowhere(s: Shape, side: Side)
    ensures From(s, side, NPOS, 0) == []
  {
  }

  lemma LinkedTotal(nodes: seq<OrderNode>, level: PriceLevel, q: seq<nat>)
    requires Linked(nodes, level, q)
    ensures InSlab(nodes, q) && level.total == Total(OrdersAt(nodes, q)) && level.count == |q|
  {
  }

  /** A live handle has one seat, on its own side and at its own price. */
  lemma OnlySeat(s: Shape, h: nat) returns (t: nat, k: nat)
    requires s.Ok() && h in s.tickOf
    ensures h < |s.nodes| && s.inst.WellFormed()
    ensures var o := s.nodes[h].order;
            && t < |s.Queues(o.side)| && k < |s.Queues(o.side)[t]| && s.Queues(o.side)[t][k] == h
            && TickPrice(s.inst, t) == o.price
            && forall side: Side, u: nat, j: nat ::
                 u < |s.Queues(side)| && j < |s.Queues(side)[u]| && s.Queues(side)[u][j] == h ==>
                     side == o.side && u == t && j == k
  {
    hide Shape.Ok, Linked, SideFits, TickPrice;
    k := LiveIsSeated(s, h);
    t := s.tickOf[h];
    var o := s.nodes[h].order;
    ShapeSlab(s, o.side);
    forall side: Side, u: nat, j: nat | u < |s.Queues(side)| && j < |s.Queues(side)[u]| && s.Queues(side)[u][j] == h
      ensures side == o.side && u == t && j == k
    {
      QueuedSeat(s, side, u, j);
      ShapeSlab(s, side);
      FromTick(s, side, u);
      SeatsDiffer(s.nodes, s.Levels(side)[u], s.Queues(side)[u], j, k);
    }
  }

  lemma SeatsDiffer(nodes: seq<OrderNode>, level: PriceLevel, q: seq<nat>, i: nat, j: nat)
    requires Linked(nodes, level, q) && i < |q| && j < |q|
    ensures q[i] == q[j] ==> i == j
  {
  }

  /** What a queue shows as one level when the next queue holds another price. */
  lemma ShapeEntry(s: Shape, side: Side, t: nat, n: int)
    requires s.Ok() && s.inst.WellFormed() && t < |s.Queues(side)| == |s.Levels(side)| && s.Queues(side)[t] != []
    requires n == NPOS || (0 <= n < |s.Queues(side)| && s.Queues(side)[n] != [] && n != t)
    requires From(s, side, t, |s.Queues(side)[t]|) == From(s, side, n, 0)
    ensures Aggregate(From(s, side, t, 0)) ==
            [DepthLevel(TickPrice(s.inst, t), s.Levels(side)[t].total, s.Levels(side)[t].count)]
            + Aggregate(From(s, side, n, 0))
  {
    hide From, Shape.Ok, Linked, Aggregate, Total, TickPrice;
    FromTick(s, side, t);
    LinkedTotal(s.nodes, s.Levels(side)[t], s.Queues(side)[t]);
    if n != NPOS {
      FromHead(s, side, n, 0);
      TickPricesDiffer(s.inst, t, n);
    } else {
      FromNowhere(s, side);
    }
    AggregateLevel(OrdersAt(s.nodes, s.Queues(side)[t]), From(s, side, n, 0), TickPrice(s.inst, t));
  }

  lemma NotReachable(q: seq<Order>, incoming: Order)
    requires q != [] && !Crosses(incoming, q[0].price)
    ensures Reachable(q, incoming) == 0
  {
  }

  lemma ReachableNothing(incoming: Order)
    ensures Reachable([], incoming) == 0
  {
  }

  lemma QueueEnd(s: Shape, side: Side, t: nat, i: nat)
    requires s.Ok() && t < |s.Queues(side)| && i <= |s.Queues(side)[t]|
    ensures At(s.Queues(side)[t], i) == NULL_HANDLE <==> i == |s.Queues(side)[t]|
  {
    hide SideFits;
    if i < |s.Queues(side)[t]| {
      QueuedSeat(s, side, t, i);
    }
  }

  /** An order on the book is the one its identifier leads to. */
  lemma QueuedIsIndexed(s: Shape, b: Book, side: Side, p: nat)
    requires Spells(s, b) && p < |b.Queue(side)|
    ensures var o := b.Queue(side)[p]; o.id in s.idx && s.idx[o.id] < |s.nodes| && s.nodes[s.idx[o.id]].order == o
  {
    hide SideFits;
    var o := b.Queue(side)[p];
    ShapeSlab(s, side);
    var qs := Ranked(s.nodes, s.Queues(side), side.Buy?);
    assert o in Flatten(qs);
    var j := FlattenMember(qs, o);
    var t := Rank(side.Buy?, |s.Queues(side)|, j);
    var i :| 0 <= i < |qs[j]| && qs[j][i] == o;
    QueuedSeat(s, side, t, i);
  }

  lemma FoundIsIndexed(s: Shape, b: Book, id: nat)
    requires Spells(s, b) && BookOk(b) && b.Find(id).Some?
    ensures id in s.idx && s.idx[id] < |s.nodes| && s.nodes[s.idx[id]].order == b.Find(id).value
  {
    hide BookOk, Spells, Lookup;
    var k := FindLocates(b, id);
    QueuedIsIndexed(s, b, b.Find(id).value.side, k);
  }

  lemma IndexTells(s: Shape, b: Book, id: nat)
    requires Spells(s, b) && BookOk(b)
    ensures id in s.idx ==> s.idx[id] < |s.nodes| && b.Find(id) == Some(s.nodes[s.idx[id]].order)
    ensures id !in s.idx ==> b.Find(id) == None
  {
    hide Spells, BookOk, Lookup;
    if id in s.idx {
      IndexedIsFound(s, b, id);
    }
    if b.Find(id).Some? {
      FoundIsIndexed(s, b, id);
    }
  }

  lemma OtherNodes(s: Shape, nodes': seq<OrderNode>, side: Side)
    ensures var s' := s.(nodes := nodes'); s'.Levels(side) == s.Levels(side) && s'.Queues(side) == s.Queues(side)
  {
  }

  /** Replacing a resting order, branch by branch. */
  lemma ReplaceInvalid(b: Book, id: nat, newPrice: int, newQuantity: nat, sequence: nat, now: int)
    requires b.instrument.WellFormed() && b.Find(id).Some?
    requires !b.instrument.IsValidPrice(newPrice) || !b.instrument.IsValidQuantity(newQuantity)
    ensures var reject := if !b.instrument.IsValidPrice(newPrice) then InvalidPrice else InvalidQuantity;
            Matching.Replace(b, id, newPrice, newQuantity, sequence, now)
            == Effect(b, ReplaceResult(reject, false, b.Find(id), 0, 0, false), [], [])
  {
    hide Instrument.IsValidPrice, Instrument.IsValidQuantity, Lookup;
  }

  lemma ReplaceRemoves(b: Book, id: nat, newPrice: int, newQuantity: nat, sequence: nat, now: int)
    requires b.instrument.WellFormed() && b.Find(id).Some?
    requires b.instrument.IsValidPrice(newPrice) && b.instrument.IsValidQuantity(newQuantity)
    requires newQuantity <= b.Find(id).value.Filled()
    ensures Matching.Replace(b, id, newPrice, newQuantity, sequence, now)
            == Effect(RemoveOrder(b, b.Find(id).value), ReplaceResult(Accepted, false, b.Find(id), 0, 0, false), [], [])
  {
    hide Instrument.IsValidPrice, Instrument.IsValidQuantity, Lookup, RemoveOrder;
  }

  lemma ReplaceReduces(b: Book, id: nat, newQuantity: nat, sequence: nat, now: int)
    requires b.instrument.WellFormed() && b.Find(id).Some?
    requires b.instrument.IsValidPrice(b.Find(id).value.price) && b.instrument.IsValidQuantity(newQuantity)
    requires b.Find(id).value.Filled() < newQuantity < b.Find(id).value.quantity
    ensures var o := b.Find(id).value;
            var reduced := o.(quantity := newQuantity, remaining := newQuantity - o.Filled());
            Matching.Replace(b, id, o.price, newQuantity, sequence, now)
            == Effect(b.WithQueue(o.side, Amend(b.Queue(o.side), reduced)),
                      ReplaceResult(Accepted, true, Some(o), 0, 0, true), [], [])
  {
    hide Instrument.IsValidPrice, Instrument.IsValidQuantity, Lookup, Amend;
  }

  lemma ReplaceRequeues(b: Book, id: nat, newPrice: int, newQuantity: nat, sequence: nat, now: int)
    requires BookOk(b) && b.instrument.WellFormed() && b.Find(id).Some?
    requires b.instrument.IsValidPrice(newPrice) && b.instrument.IsValidQuantity(newQuantity)
    requires newQuantity > b.Find(id).value.Filled()
    requires !(newPrice == b.Find(id).value.price && newQuantity < b.Find(id).value.quantity)
    ensures var o := b.Find(id).value;
            var a := Amended(o, newPrice, newQuantity, sequence, now);
            var f := Insert(RemoveOrder(b, o), a);
            && a.sequence == sequence && a.remaining <= a.quantity
            && Matching.Replace(b, id, newPrice, newQuantity, sequence, now)
               == Effect(f.book, ReplaceResult(f.result.reject, false, Some(o), f.result.filled, f.result.stpCancelled,
                                               f.result.rested), f.fills, f.withdrawals)
  {
    hide Instrument.IsValidPrice, Instrument.IsValidQuantity, Lookup, Insert, RemoveOrder, BookOk;
    var k := FindLocates(b, id);
  }

  lemma ReplaceUnknown(b: Book, id: nat, newPrice: int, newQuantity: nat, sequence: nat, now: int)
    requires b.instrument.WellFormed() && b.Find(id).None?
    ensures Matching.Replace(b, id, newPrice, newQuantity, sequence, now)
            == Effect(b, ReplaceResult(UnknownOrder, false, None, 0, 0, false), [], [])
  {
  }

  /** What matching reports as filled is what the sizes say. */
  lemma MatchedTotals(b: Book, o: Order)
    requires BookOk(b) && o.remaining <= o.quantity
    ensures var m := Run(b.instrument, Start(b, o));
            o.remaining == m.incoming.remaining + m.stpCancelled + FillTotal(m.fills)
  {
    hide BookOk, Run;
    QueueLive(b, o.side.Opposite());
    RunConserves(b.instrument, Start(b, o));
    ConservedSizes(Start(b, o), Run(b.instrument, Start(b, o)));
  }

  /** The matched book has room for what is left, at a price the ladder holds. */
  lemma LeftoverFits(b: Book, o: Order)
    requires BookOk(b) && o.remaining <= o.quantity && Admission(b, o) == Accepted
    requires Rests(o, Run(b.instrument, Start(b, o)).incoming.remaining)
    ensures var c := Matched(b, o);
            c.Find(o.id).None? && |c.bids| + |c.asks| <= |b.bids| + |b.asks|
    ensures b.instrument.WellFormed() && b.instrument.IsValidPrice(o.price)
  {
    hide BookOk, Run, Lookup;
    QueueLive(b, o.side.Opposite());
    LeftoverMayRest(b, o);
    RunResidue(b.instrument, Start(b, o));
    var c := Matched(b, o);
    assert c.Queue(o.side) == b.Queue(o.side) && c.Queue(o.side.Opposite()) == Run(b.instrument, Start(b, o)).queue;
    var _ := LookupFinds(c.Queue(o.side), o.id);
    var _ := LookupFinds(c.Queue(o.side.Opposite()), o.id);
    FindBySide(c, o.side, o.id);
  }

  lemma TickPricesDiffer(inst: Instrument, t: nat, u: nat)
    requires inst.WellFormed() && t != u
    ensures TickPrice(inst, t) != TickPrice(inst, u)
  {
    if t < u {
      MultipleBound(u - t, inst.tickSize);
    } else {
      MultipleBound(t - u, inst.tickSize);
    }
    assert (u - t) * inst.tickSize == u * inst.tickSize - t * inst.tickSize;
    assert (t - u) * inst.tickSize == -((u - t) * inst.tickSize);
  }

  lemma MovedOver<T>(done: seq<T>, x: T, rest: seq<T>)
    ensures done + ([x] + rest) == done + [x] + rest
  {
  }
}

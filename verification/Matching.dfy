/** Price-time priority matching, stated on values.

    A side of the book is the sequence of its resting orders in matching order:
    best price first and, within a price, earliest sequence number first.  An
    incoming order interacts with the front of the opposite side one step at a
    time.  Both the optimised order book and the flat reference book are proved
    against the functions of this module. */
module Matching {
  import opened Types

  // ----- priority

  /** On a resting side, is price `a` strictly ahead of price `b`? */
  predicate BetterPrice(side: Side, a: int, b: int) {
    if side.Buy? then a > b else a < b
  }

  predicate Precedes(a: Order, b: Order) {
    BetterPrice(a.side, a.price, b.price) || (a.price == b.price && a.sequence < b.sequence)
  }

  ghost predicate Sorted(q: seq<Order>) {
    forall i, j :: 0 <= i < j < |q| ==> Precedes(q[i], q[j])
  }

  /** May an aggressor on `side` with this limit trade at `price`? */
  predicate Reaches(side: Side, limit: int, isMarket: bool, price: int) {
    isMarket || (if side.Buy? then limit >= price else limit <= price)
  }

  predicate Crosses(incoming: Order, price: int) {
    Reaches(incoming.side, incoming.price, incoming.kind.Market?, price)
  }

  // ----- one interaction, and the whole walk

  datatype MatchState = MatchState(
    queue: seq<Order>,
    incoming: Order,
    fills: seq<Fill>,
    withdrawals: seq<Withdrawal>,
    stpCancelled: nat,
    nextTradeId: nat)

  predicate PreventionActive(policy: SelfTradePolicy, incoming: Order) {
    policy != Allow && ValidId(incoming.account)
  }

  predicate Finished(s: MatchState) {
    s.incoming.remaining == 0 || s.queue == [] || !Crosses(s.incoming, s.queue[0].price)
  }

  function WithdrawalOf(resting: Order, instrument: nat, quantity: nat, fullyRemoved: bool): Withdrawal {
    Withdrawal(resting.id, resting.account, instrument, resting.side, quantity, fullyRemoved, SelfTrade)
  }

  /** The incoming order meets the front of the queue. */
  function Step(inst: Instrument, s: MatchState): MatchState
    requires !Finished(s)
  {
    var resting := s.queue[0];
    if PreventionActive(inst.selfTradePolicy, s.incoming) && resting.account == s.incoming.account then
      SelfTradeStep(inst, s)
    else
      TradeStep(inst, s)
  }

  function SelfTradeStep(inst: Instrument, s: MatchState): MatchState
    requires !Finished(s) && inst.selfTradePolicy != Allow
  {
    var resting := s.queue[0];
    match inst.selfTradePolicy
    case CancelIncoming =>
      s.(stpCancelled := s.stpCancelled + s.incoming.remaining,
         incoming := s.incoming.(remaining := 0))
    case CancelResting =>
      s.(queue := s.queue[1..],
         withdrawals := s.withdrawals + [WithdrawalOf(resting, inst.id, resting.remaining, true)])
    case CancelBoth =>
      s.(stpCancelled := s.stpCancelled + s.incoming.remaining,
         incoming := s.incoming.(remaining := 0),
         queue := s.queue[1..],
         withdrawals := s.withdrawals + [WithdrawalOf(resting, inst.id, resting.remaining, true)])
    case DecrementBoth =>
      var overlap := Min(s.incoming.remaining, resting.remaining);
      var left := resting.remaining - overlap;
      s.(stpCancelled := s.stpCancelled + overlap,
         incoming := Decremented(s.incoming, overlap),
         queue := (if left == 0 then [] else [Decremented(resting, overlap)]) + s.queue[1..],
         withdrawals := s.withdrawals + [WithdrawalOf(resting, inst.id, overlap, left == 0)])
  }

  /** Prevention withdraws quantity, so the total shrinks with the remainder. */
  function Decremented(o: Order, overlap: nat): Order
    requires overlap <= o.remaining
  {
    o.(remaining := o.remaining - overlap,
       quantity := if overlap <= o.quantity then o.quantity - overlap else 0)
  }

  function TradeStep(inst: Instrument, s: MatchState): MatchState
    requires !Finished(s)
  {
    var resting := s.queue[0];
    var quantity := Min(s.incoming.remaining, resting.remaining);
    var left := resting.remaining - quantity;
    s.(incoming := s.incoming.(remaining := s.incoming.remaining - quantity),
       queue := (if left == 0 then [] else [resting.(remaining := left)]) + s.queue[1..],
       fills := s.fills + [FillOf(inst, s.incoming, resting, quantity, s.nextTradeId)],
       nextTradeId := s.nextTradeId + 1)
  }

  function FillOf(inst: Instrument, incoming: Order, resting: Order, quantity: nat, tradeId: nat): Fill {
    Fill(tradeId, inst.id, resting.price, quantity, incoming.id, resting.id,
         incoming.account, resting.account, incoming.side, resting.remaining == quantity, incoming.acceptedAt)
  }

  function Measure(s: MatchState): nat {
    |s.queue| + if s.incoming.remaining > 0 then 1 else 0
  }

  function Run(inst: Instrument, s: MatchState): MatchState
    decreases Measure(s)
  {
    if Finished(s) then s else Run(inst, Step(inst, s))
  }

  // ----- sums

  function FillTotal(fills: seq<Fill>): nat {
    if fills == [] then 0 else FillTotal(fills[..|fills| - 1]) + fills[|fills| - 1].quantity
  }

  function WithdrawnTotal(ws: seq<Withdrawal>): nat {
    if ws == [] then 0 else WithdrawnTotal(ws[..|ws| - 1]) + ws[|ws| - 1].quantity
  }

  function Total(q: seq<Order>): nat {
    if q == [] then 0 else q[0].remaining + Total(q[1..])
  }

  // ----- edits of one side

  /** Puts `o` behind every order at its price or better. */
  function Place(q: seq<Order>, o: Order): seq<Order> {
    if q == [] || BetterPrice(o.side, o.price, q[0].price) then [o] + q
    else [q[0]] + Place(q[1..], o)
  }

  function Lookup(q: seq<Order>, id: nat): Option<Order> {
    if q == [] then None else if q[0].id == id then Some(q[0]) else Lookup(q[1..], id)
  }

  function Without(q: seq<Order>, id: nat): seq<Order> {
    if q == [] then [] else if q[0].id == id then q[1..] else [q[0]] + Without(q[1..], id)
  }

  /** Puts `o` where the order with its identifier stands. */
  function Amend(q: seq<Order>, o: Order): seq<Order> {
    if q == [] then [] else if q[0].id == o.id then [o] + q[1..] else [q[0]] + Amend(q[1..], o)
  }

  // ----- the book

  datatype Book = Book(instrument: Instrument, bids: seq<Order>, asks: seq<Order>, nextTradeId: nat)
  {
    function Queue(side: Side): seq<Order> { if side.Buy? then bids else asks }

    function WithQueue(side: Side, q: seq<Order>): Book {
      if side.Buy? then this.(bids := q) else this.(asks := q)
    }

    function Find(id: nat): Option<Order> {
      var bid := Lookup(bids, id);
      if bid.Some? then bid else Lookup(asks, id)
    }
  }

  function EmptyBook(inst: Instrument): Book { Book(inst, [], [], 1) }

  datatype SubmitResult = SubmitResult(reject: RejectReason, filled: nat, stpCancelled: nat, rested: bool)

  datatype CancelResult = CancelResult(reject: RejectReason, order: Option<Order>)

  datatype ReplaceResult = ReplaceResult(
    reject: RejectReason,
    priorityRetained: bool,
    previous: Option<Order>,
    filled: nat,
    stpCancelled: nat,
    rested: bool)

  /** A command's effect: the next book, the answer, and what was reported on the way. */
  datatype Effect<R> = Effect(book: Book, result: R, fills: seq<Fill>, withdrawals: seq<Withdrawal>)

  function Validate(b: Book, o: Order): RejectReason
    requires b.instrument.WellFormed()
  {
    if o.instrument != b.instrument.id then UnknownInstrument
    else if !b.instrument.IsValidQuantity(o.quantity) then InvalidQuantity
    else if o.kind.Limit? && !b.instrument.IsValidPrice(o.price) then InvalidPrice
    else if b.Find(o.id).Some? then DuplicateOrderId
    else Accepted
  }

  predicate WouldCross(b: Book, o: Order) {
    o.kind.Market? || (b.Queue(o.side.Opposite()) != [] && Crosses(o, b.Queue(o.side.Opposite())[0].price))
  }

  function Start(b: Book, o: Order): MatchState {
    MatchState(b.Queue(o.side.Opposite()), o, [], [], 0, b.nextTradeId)
  }

  function Refused(b: Book, reason: RejectReason): Effect<SubmitResult> {
    Effect(b, SubmitResult(reason, 0, 0, false), [], [])
  }

  predicate Rests(o: Order, left: nat) {
    left > 0 && o.kind.Limit? && !o.tif.ImmediateOrCancel?
  }

  /** The book after matching and before anything rests. */
  function Matched(b: Book, o: Order): Book {
    var m := Run(b.instrument, Start(b, o));
    b.WithQueue(o.side.Opposite(), m.queue).(nextTradeId := m.nextTradeId)
  }

  function Rested(b: Book, o: Order): Book {
    b.WithQueue(o.side, Place(b.Queue(o.side), o))
  }

  /** Match, then rest what the time in force permits. */
  function Execute(b: Book, o: Order): Effect<SubmitResult> {
    var m := Run(b.instrument, Start(b, o));
    var rests := Rests(o, m.incoming.remaining);
    Effect(if rests then Rested(Matched(b, o), m.incoming) else Matched(b, o),
           SubmitResult(Accepted, FillTotal(m.fills), m.stpCancelled, rests), m.fills, m.withdrawals)
  }

  /** Fill-or-kill is decided by what matching would do. */
  predicate Killed(b: Book, o: Order) {
    o.tif.FillOrKill? && FillTotal(Run(b.instrument, Start(b, o)).fills) < o.remaining
  }

  /** Every check that can turn an order away before the book changes. */
  function Admission(b: Book, o: Order): RejectReason
    requires b.instrument.WellFormed()
  {
    var reject := Validate(b, o);
    if reject != Accepted then reject
    else if o.postOnly && WouldCross(b, o) then PostOnlyWouldCross
    else if Killed(b, o) then FillOrKillUnfillable
    else Accepted
  }

  function Insert(b: Book, o: Order): Effect<SubmitResult>
    requires b.instrument.WellFormed()
  {
    var reject := Admission(b, o);
    if reject != Accepted then Refused(b, reject) else Execute(b, o)
  }

  function Submit(b: Book, o: Order): Effect<SubmitResult>
    requires b.instrument.WellFormed()
  {
    Insert(b, o.(remaining := o.quantity))
  }

  function RemoveOrder(b: Book, o: Order): Book {
    b.WithQueue(o.side, Without(b.Queue(o.side), o.id))
  }

  function Cancel(b: Book, id: nat): Effect<CancelResult> {
    match b.Find(id)
    case None => Effect(b, CancelResult(UnknownOrder, None), [], [])
    case Some(o) => Effect(RemoveOrder(b, o), CancelResult(Accepted, Some(o)), [], [])
  }

  /** The amendment of `previous` that re-enters the book as a fresh arrival. */
  function Amended(previous: Order, newPrice: int, newQuantity: nat, sequence: nat, now: int): Order
    requires newQuantity >= previous.Filled()
  {
    previous.(price := newPrice, quantity := newQuantity, remaining := newQuantity - previous.Filled(),
              sequence := sequence, acceptedAt := now)
  }

  function Replace(b: Book, id: nat, newPrice: int, newQuantity: nat, sequence: nat, now: int): Effect<ReplaceResult>
    requires b.instrument.WellFormed()
  {
    match b.Find(id)
    case None => Effect(b, ReplaceResult(UnknownOrder, false, None, 0, 0, false), [], [])
    case Some(previous) =>
      if !b.instrument.IsValidPrice(newPrice) then
        Effect(b, ReplaceResult(InvalidPrice, false, Some(previous), 0, 0, false), [], [])
      else if !b.instrument.IsValidQuantity(newQuantity) then
        Effect(b, ReplaceResult(InvalidQuantity, false, Some(previous), 0, 0, false), [], [])
      else if newQuantity <= previous.Filled() then
        Effect(RemoveOrder(b, previous), ReplaceResult(Accepted, false, Some(previous), 0, 0, false), [], [])
      else if newPrice == previous.price && newQuantity < previous.quantity then
        var reduced := previous.(quantity := newQuantity, remaining := newQuantity - previous.Filled());
        Effect(b.WithQueue(previous.side, Amend(b.Queue(previous.side), reduced)),
               ReplaceResult(Accepted, true, Some(previous), 0, 0, true), [], [])
      else
        var e := Insert(RemoveOrder(b, previous), Amended(previous, newPrice, newQuantity, sequence, now));
        Effect(e.book,
               ReplaceResult(e.result.reject, false, Some(previous), e.result.filled, e.result.stpCancelled,
                             e.result.rested),
               e.fills, e.withdrawals)
  }
}

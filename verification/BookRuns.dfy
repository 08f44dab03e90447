/** Whole runs: what holds of the book after any stream of commands. */
module BookRuns {
  import opened Types
  import opened Matching
  import opened BookInvariant
  import opened BookSteps

  datatype Command =
    | SubmitOrder(order: Order)
    | CancelOrder(id: nat)
    | ReplaceOrder(id: nat, price: int, quantity: nat, sequence: nat, now: int)

  datatype Answer =
    | Submitted(submit: SubmitResult)
    | Cancelled(cancel: CancelResult)
    | Replaced(replace: ReplaceResult)

  function Apply(b: Book, c: Command): Effect<Answer>
    requires b.instrument.WellFormed()
  {
    match c
    case SubmitOrder(o) =>
      var e := Submit(b, o); Effect(e.book, Submitted(e.result), e.fills, e.withdrawals)
    case CancelOrder(id) =>
      var e := Cancel(b, id); Effect(e.book, Cancelled(e.result), e.fills, e.withdrawals)
    case ReplaceOrder(id, price, quantity, sequence, now) =>
      var e := Replace(b, id, price, quantity, sequence, now);
      Effect(e.book, Replaced(e.result), e.fills, e.withdrawals)
  }

  /** The number a command takes, if it takes one. */
  function Number(c: Command): Option<nat> {
    match c
    case SubmitOrder(o) => Some(o.sequence)
    case CancelOrder(_) => None
    case ReplaceOrder(_, _, _, sequence, _) => Some(sequence)
  }

  /** The least number the next command may carry. */
  function NextNumber(cmds: seq<Command>, first: nat): nat {
    if cmds == [] then first
    else match Number(cmds[|cmds| - 1])
      case None => NextNumber(cmds[..|cmds| - 1], first)
      case Some(n) => n + 1
  }

  /** Sequence numbers go strictly up along the stream. */
  predicate Numbered(cmds: seq<Command>, first: nat) {
    cmds == [] ||
    (var prefix, n := cmds[..|cmds| - 1], Number(cmds[|cmds| - 1]);
     Numbered(prefix, first) && (n.Some? ==> NextNumber(prefix, first) <= n.value))
  }

  function After(b: Book, cmds: seq<Command>): (c: Book)
    requires b.instrument.WellFormed()
    ensures c.instrument == b.instrument
  {
    if cmds == [] then b
    else
      var prefix := After(b, cmds[..|cmds| - 1]);
      ApplyInstrument(prefix, cmds[|cmds| - 1]);
      Apply(prefix, cmds[|cmds| - 1]).book
  }

  lemma ApplyInstrument(b: Book, c: Command)
    requires b.instrument.WellFormed()
    ensures Apply(b, c).book.instrument == b.instrument
  {
  }

  // ----- the invariant

  lemma ApplyKeepsBook(b: Book, c: Command, next: nat)
    requires BookOk(b) && Fresh(b, next) && (Number(c).Some? ==> next <= Number(c).value)
    ensures BookOk(Apply(b, c).book) && Fresh(Apply(b, c).book, if Number(c).Some? then Number(c).value + 1 else next)
  {
    hide BookOk, Insert, Replace, Fresh, Lookup, RemoveOrder;
    BookWellFormed(b);
    if Number(c).Some? {
      FreshLater(b, next, Number(c).value);
    }
    match c
    case SubmitOrder(o) => InsertKeepsBook(b, o.(remaining := o.quantity));
    case CancelOrder(id) =>
      if b.Find(id).Some? {
        RemoveKeepsBook(b, id);
      }
    case ReplaceOrder(id, price, quantity, sequence, now) => ReplaceKeepsBook(b, id, price, quantity, sequence, now);
  }

  /** From an empty book, every numbered stream keeps the invariant. */
  lemma {:induction false} RunKeepsBook(inst: Instrument, cmds: seq<Command>, first: nat)
    requires inst.WellFormed() && Numbered(cmds, first)
    ensures var b := After(EmptyBook(inst), cmds); BookOk(b) && Fresh(b, NextNumber(cmds, first))
  {
    hide Apply;
    if cmds != [] {
      RunKeepsBook(inst, cmds[..|cmds| - 1], first);
      ApplyKeepsBook(After(EmptyBook(inst), cmds[..|cmds| - 1]), cmds[|cmds| - 1],
                     NextNumber(cmds[..|cmds| - 1], first));
    }
  }

  /** No reachable book is crossed, and both sides are in price-time order. */
  lemma NeverCrossed(inst: Instrument, cmds: seq<Command>, first: nat)
    requires inst.WellFormed() && Numbered(cmds, first)
    ensures var b := After(EmptyBook(inst), cmds);
            && (forall i, j :: 0 <= i < |b.bids| && 0 <= j < |b.asks| ==> b.bids[i].price < b.asks[j].price)
            && (forall i, j :: 0 <= i < j < |b.bids| ==>
                  b.bids[i].price > b.bids[j].price
                  || (b.bids[i].price == b.bids[j].price && b.bids[i].sequence < b.bids[j].sequence))
            && (forall i, j :: 0 <= i < j < |b.asks| ==>
                  b.asks[i].price < b.asks[j].price
                  || (b.asks[i].price == b.asks[j].price && b.asks[i].sequence < b.asks[j].sequence))
  {
    hide After;
    RunKeepsBook(inst, cmds, first);
    var b := After(EmptyBook(inst), cmds);
    NothingCrosses(b);
    InPriorityOrder(b.bids, Buy, inst);
    InPriorityOrder(b.asks, Sell, inst);
  }

  lemma InPriorityOrder(q: seq<Order>, side: Side, inst: Instrument)
    requires inst.WellFormed() && SideOk(q, side, inst)
    ensures forall i, j :: 0 <= i < j < |q| ==>
              BetterPrice(side, q[i].price, q[j].price) || (q[i].price == q[j].price && q[i].sequence < q[j].sequence)
  {
    forall i, j | 0 <= i < j < |q|
      ensures BetterPrice(side, q[i].price, q[j].price) || (q[i].price == q[j].price && q[i].sequence < q[j].sequence)
    {
      assert Precedes(q[i], q[j]) && Resting(q[i], side, inst);
    }
  }

  // ----- a command adds at most one order to the book

  function Size(b: Book): nat { |b.bids| + |b.asks| }

  lemma InsertGrows(b: Book, o: Order)
    requires BookOk(b) && o.remaining <= o.quantity
    ensures Size(Insert(b, o).book) <= Size(b) + 1
  {
    hide BookOk, Run, Lookup, Place, Admission;
    BookWellFormed(b);
    if Admission(b, o) == Accepted {
      QueueLive(b, o.side.Opposite());
      RunResidue(b.instrument, Start(b, o));
      MatchedIncoming(b, o);
      var r := Run(b.instrument, Start(b, o));
      var k := PlaceRank(b.Queue(o.side), r.incoming);
    }
  }

  lemma ApplyGrows(b: Book, c: Command)
    requires BookOk(b)
    ensures b.instrument.WellFormed() && Size(Apply(b, c).book) <= Size(b) + 1
  {
    hide BookOk, Insert, Lookup, Amend, RemoveOrder;
    BookWellFormed(b);
    match c
    case SubmitOrder(o) => InsertGrows(b, o.(remaining := o.quantity));
    case CancelOrder(id) =>
      if b.Find(id).Some? {
        RemoveShrinks(b, id);
      }
    case ReplaceOrder(id, price, quantity, sequence, now) =>
      if b.Find(id).Some? {
        RemoveShrinks(b, id);
        RemoveKeepsBook(b, id);
        var o := b.Find(id).value;
        var k := FindLocates(b, id);
        BookOkBySideUnique(b, o.side);
        if quantity > o.Filled() {
          InsertGrows(RemoveOrder(b, o), Amended(o, price, quantity, sequence, now));
          EditAtUnique(b.Queue(o.side), o.(quantity := quantity, remaining := quantity - o.Filled()), k);
        }
      }
  }
}

/** The optimised book and the flat reference, driven by the same stream. */
module Differential {
  import opened Types
  import opened Matching
  import opened BookInvariant
  import opened BookSteps
  import opened BookRuns
  import opened Slab
  import opened OrderBooks
  import opened ReferenceModel

  /** New submissions have traded nothing yet. */
  predicate Untraded(c: Command) {
    c.SubmitOrder? ==> c.order.remaining == c.order.quantity
  }

  /** What one command lets a participant see: its answer, its fills and the book it leaves. */
  datatype Observation = Observation(answer: Answer, fills: seq<Fill>, resting: seq<Order>)

  function Seen(e: Effect<Answer>): Observation {
    Observation(e.result, e.fills, e.book.bids + e.book.asks)
  }

  /** Everything a stream lets a participant see, command by command, from an empty book. */
  function Transcript(inst: Instrument, cmds: seq<Command>): seq<Observation>
    requires inst.WellFormed()
  {
    if cmds == [] then []
    else
      var before := cmds[..|cmds| - 1];
      Transcript(inst, before) + [Seen(Apply(After(EmptyBook(inst), before), cmds[|cmds| - 1]))]
  }

  method SubmitToBoth(book: OrderBook, reference: ReferenceBook, o: Order)
    returns (result: SubmitResult, fills: seq<Fill>, expected: SubmitResult, expectedFills: seq<Fill>)
    requires book.Valid() && reference.Valid() && book.book == reference.book && reference !in book.Repr()
    requires Fresh(book.book, o.sequence) && o.remaining == o.quantity && Size(book.book) < NULL_HANDLE
    modifies book.Repr(), reference
    ensures var e := Submit(old(book.book), o);
            && book.Valid() && reference.Valid() && book.book == reference.book == e.book
            && result == expected == e.result && fills == expectedFills == e.fills
  {
    hide OrderBook.Structured, BookOk, Flat, Fresh, Insert;
    BookWellFormed(book.book);
    ghost var withdrawals;
    result, fills, withdrawals := book.Submit(o);
    expected, expectedFills := reference.Submit(o);
  }

  method CancelOnBoth(book: OrderBook, reference: ReferenceBook, id: nat)
    returns (result: CancelResult, expected: CancelResult)
    requires book.Valid() && reference.Valid() && book.book == reference.book && reference !in book.Repr()
    modifies book.Repr(), reference
    ensures var e := Cancel(old(book.book), id);
            book.Valid() && reference.Valid() && book.book == reference.book == e.book && result == expected == e.result
  {
    hide OrderBook.Structured, BookOk, Flat, Cancel;
    result := book.Cancel(id);
    expected := reference.Cancel(id);
  }

  method ReplaceOnBoth(book: OrderBook, reference: ReferenceBook, id: nat, price: int, quantity: nat, sequence: nat,
                       now: int)
    returns (result: ReplaceResult, fills: seq<Fill>, expected: ReplaceResult, expectedFills: seq<Fill>)
    requires book.Valid() && reference.Valid() && book.book == reference.book && reference !in book.Repr()
    requires Fresh(book.book, sequence) && book.book.instrument.WellFormed()
    modifies book.Repr(), reference
    ensures var e := Replace(old(book.book), id, price, quantity, sequence, now);
            && book.Valid() && reference.Valid() && book.book == reference.book == e.book
            && result == expected == e.result && fills == expectedFills == e.fills
  {
    hide OrderBook.Structured, BookOk, Flat, Fresh, Replace;
    ghost var withdrawals;
    result, fills, withdrawals := book.Replace(id, price, quantity, sequence, now);
    expected, expectedFills := reference.Replace(id, price, quantity, sequence, now);
  }

  /** One command given to both books, and what each lets its user see. */
  method Drive(book: OrderBook, reference: ReferenceBook, c: Command)
    returns (observed: Observation, expected: Observation)
    requires book.Valid() && reference.Valid() && book.book == reference.book && reference !in book.Repr()
    requires book.book.instrument.WellFormed() && Untraded(c) && (c.SubmitOrder? ==> Size(book.book) < NULL_HANDLE)
    requires Number(c).Some? ==> Fresh(book.book, Number(c).value)
    modifies book.Repr(), reference
    ensures var e := Apply(old(book.book), c);
            && book.Valid() && reference.Valid() && book.book == reference.book == e.book
            && observed == expected == Seen(e)
  {
    hide OrderBook.Structured, BookOk, Flat, Fresh, Submit, Cancel, Replace;
    var answer, fills, answer', fills' := Cancelled(CancelResult(Accepted, None)), [],
        Cancelled(CancelResult(Accepted, None)), [];
    match c {
      case SubmitOrder(o) =>
        var result, fs, result', fs' := SubmitToBoth(book, reference, o);
        answer, fills, answer', fills' := Submitted(result), fs, Submitted(result'), fs';
      case CancelOrder(id) =>
        var result, result' := CancelOnBoth(book, reference, id);
        answer, answer' := Cancelled(result), Cancelled(result');
        CancelSilent(old(book.book), id);
      case ReplaceOrder(id, price, quantity, sequence, now) =>
        var result, fs, result', fs' := ReplaceOnBoth(book, reference, id, price, quantity, sequence, now);
        answer, fills, answer', fills' := Replaced(result), fs, Replaced(result'), fs';
    }
    var resting := book.RestingOrders();
    var resting' := reference.RestingOrders();
    observed, expected := Observation(answer, fills, resting), Observation(answer', fills', resting');
  }

  lemma CancelSilent(b: Book, id: nat)
    ensures Cancel(b, id).fills == []
  {
  }

  /** Every submission finds a handle left for it. */
  predicate Roomy(inst: Instrument, cmds: seq<Command>)
    requires inst.WellFormed()
  {
    forall i :: 0 <= i < |cmds| && cmds[i].SubmitOrder? ==> Size(After(EmptyBook(inst), cmds[..i])) < NULL_HANDLE
  }

  /** So it is with every stream of no more commands than there are handles. */
  lemma ShortStreamFits(inst: Instrument, cmds: seq<Command>, first: nat)
    requires inst.WellFormed() && Numbered(cmds, first) && |cmds| <= NULL_HANDLE
    ensures Roomy(inst, cmds)
  {
    hide Numbered, After;
    forall i | 0 <= i < |cmds| ensures Size(After(EmptyBook(inst), cmds[..i])) <= i {
      StreamGrows(inst, cmds, first, i);
    }
  }

  lemma {:induction false} StreamGrows(inst: Instrument, cmds: seq<Command>, first: nat, i: nat)
    requires inst.WellFormed() && Numbered(cmds, first) && i <= |cmds|
    ensures Size(After(EmptyBook(inst), cmds[..i])) <= i
  {
    hide Numbered, After, BookOk, Fresh, Apply, Transcript, Seen;
    Beginning(inst);
    if i > 0 {
      StreamGrows(inst, cmds, first, i - 1);
      Advance(inst, cmds, i - 1, first);
    }
  }

  /** After every command of every stream both books have shown the same answers, the same fills
      and the same orders resting in the same order: those of the specification. */
  method Compare(inst: Instrument, hash: nat -> nat, capacity: nat, cmds: seq<Command>, first: nat)
    returns (observed: seq<Observation>, expected: seq<Observation>)
    requires inst.WellFormed() && Numbered(cmds, first) && Roomy(inst, cmds)
    requires forall i :: 0 <= i < |cmds| ==> Untraded(cmds[i])
    ensures observed == expected == Transcript(inst, cmds)
  {
    hide OrderBook.Structured, BookOk, Flat, Fresh, After, Apply, Numbered, NextNumber, Transcript, Seen;
    var book := new OrderBook(inst, hash, capacity);
    var reference := new ReferenceBook(inst);
    observed, expected := [], [];
    Beginning(inst);
    for i := 0 to |cmds|
      invariant book.Valid() && reference.Valid() && book.book == reference.book
      invariant reference !in book.Repr() && fresh(book.Repr()) && fresh(reference)
      invariant book.book == After(EmptyBook(inst), cmds[..i])
      invariant observed == expected == Transcript(inst, cmds[..i])
    {
      Advance(inst, cmds, i, first);
      assert cmds[i].SubmitOrder? ==> Size(After(EmptyBook(inst), cmds[..i])) < NULL_HANDLE;
      var o, e := Drive(book, reference, cmds[i]);
      observed, expected := observed + [o], expected + [e];
    }
    assert cmds[..|cmds|] == cmds;
  }

  lemma Beginning(inst: Instrument)
    requires inst.WellFormed()
    ensures After(EmptyBook(inst), []) == EmptyBook(inst) && Transcript(inst, []) == []
  {
  }

  /** One more command of a numbered stream. */
  lemma Advance(inst: Instrument, cmds: seq<Command>, i: nat, first: nat)
    requires inst.WellFormed() && Numbered(cmds, first) && i < |cmds|
    ensures var b := After(EmptyBook(inst), cmds[..i]);
            && BookOk(b) && b.instrument == inst
            && (Number(cmds[i]).Some? ==> Fresh(b, Number(cmds[i]).value))
            && After(EmptyBook(inst), cmds[..i + 1]) == Apply(b, cmds[i]).book
            && Size(After(EmptyBook(inst), cmds[..i + 1])) <= Size(b) + 1
            && Transcript(inst, cmds[..i + 1]) == Transcript(inst, cmds[..i]) + [Seen(Apply(b, cmds[i]))]
  {
    hide Seen, Apply, BookOk, Fresh;
    NumberedPrefix(cmds, i + 1, first);
    assert cmds[..i + 1][..i] == cmds[..i];
    RunKeepsBook(inst, cmds[..i], first);
    ApplyGrows(After(EmptyBook(inst), cmds[..i]), cmds[i]);
    if Number(cmds[i]).Some? {
      FreshLater(After(EmptyBook(inst), cmds[..i]), NextNumber(cmds[..i], first), Number(cmds[i]).value);
    }
  }

  lemma {:induction false} NumberedPrefix(cmds: seq<Command>, i: nat, first: nat)
    requires Numbered(cmds, first) && i <= |cmds|
    ensures Numbered(cmds[..i], first)
  {
    if i < |cmds| {
      NumberedPrefix(cmds[..|cmds| - 1], i, first);
      assert cmds[..|cmds| - 1][..i] == cmds[..i];
    } else {
      assert cmds[..i] == cmds;
    }
  }
}

/** The ledger of a run: what every order on the book has traded is what was
    reported traded, through replaces and self-trade prevention alike. */
module Ledger {
  import opened Types
  import opened Matching
  import opened BookInvariant
  import opened BookSteps
  import opened Conservation
  import opened BookRuns
  import opened Priority

  /** The quantity that `fills` report for order `id`, on either side of the trade. */
  function Named(fills: seq<Fill>, id: nat): nat {
    if fills == [] then 0
    else
      var f := fills[|fills| - 1];
      Named(fills[..|fills| - 1], id) + if f.aggressorOrder == id || f.restingOrder == id then f.quantity else 0
  }

  /** What a run reports order `id` to have traded since it was last accepted. */
  function TradedSince(inst: Instrument, cmds: seq<Command>, id: nat): nat
    requires inst.WellFormed()
  {
    if cmds == [] then 0
    else
      var prefix, c := cmds[..|cmds| - 1], cmds[|cmds| - 1];
      var e := Apply(After(EmptyBook(inst), prefix), c);
      (if AcceptedAs(c, e.result, id) then 0 else TradedSince(inst, prefix, id)) + Named(e.fills, id)
  }

  predicate AcceptedAs(c: Command, a: Answer, id: nat) {
    c.SubmitOrder? && c.order.id == id && a.Submitted? && a.submit.reject == Accepted
  }

  lemma NamedAppend(fills: seq<Fill>, f: Fill, id: nat)
    ensures Named(fills + [f], id) == Named(fills, id) + if f.aggressorOrder == id || f.restingOrder == id
            then f.quantity else 0
  {
    assert (fills + [f])[..|fills|] == fills;
  }

  lemma {:induction false} NamedNone(fills: seq<Fill>, id: nat)
    requires forall i :: 0 <= i < |fills| ==> fills[i].aggressorOrder != id && fills[i].restingOrder != id
    ensures Named(fills, id) == 0
  {
    if fills != [] {
      NamedNone(fills[..|fills| - 1], id);
    }
  }

  lemma {:induction false} NamedAggressor(fills: seq<Fill>, id: nat)
    requires forall i :: 0 <= i < |fills| ==> fills[i].aggressorOrder == id
    ensures Named(fills, id) == FillTotal(fills)
  {
    if fills != [] {
      NamedAggressor(fills[..|fills| - 1], id);
    }
  }

  // ----- one match

  function FilledBefore(b: Book, id: nat): int {
    if b.Find(id).Some? then b.Find(id).value.Filled() else 0
  }

  ghost predicate Tallied(q: seq<Order>, b: Book, fills: seq<Fill>) {
    forall i :: 0 <= i < |q| ==> q[i].Filled() == FilledBefore(b, q[i].id) + Named(fills, q[i].id)
  }

  ghost predicate Strangers(s: MatchState) {
    UniqueIds(s.queue) && forall i :: 0 <= i < |s.queue| ==> s.queue[i].id != s.incoming.id
  }

  lemma StepStrangers(inst: Instrument, s: MatchState)
    requires !Finished(s) && Live(s.queue) && Strangers(s)
    ensures var t := Step(inst, s);
            var k := |s.queue| - |t.queue|;
            && Strangers(t) && 0 <= k
            && forall i :: 0 <= i < |t.queue| ==>
                 t.queue[i].id == s.queue[k + i].id && (i > 0 ==> t.queue[i] == s.queue[k + i])
  {
    var t := Step(inst, s);
    var k := |s.queue| - |t.queue|;
    StepResidue(inst, s);
    forall i | 0 <= i < |t.queue|
      ensures t.queue[i].id == s.queue[k + i].id && (i > 0 ==> t.queue[i] == s.queue[k + i])
    {
      ResidueAt(t.queue, s.queue, k, i);
      assert i > 0 ==> t.queue[i] == t.queue[1..][i - 1];
    }
    forall i, j | 0 <= i < j < |t.queue| ensures t.queue[i].id != t.queue[j].id {
      assert s.queue[k + i].id != s.queue[k + j].id;
    }
  }

  lemma StepTallies(inst: Instrument, s: MatchState, b: Book)
    requires !Finished(s) && Live(s.queue) && Strangers(s) && Tallied(s.queue, b, s.fills)
    ensures var t := Step(inst, s); Strangers(t) && Tallied(t.queue, b, t.fills)
  {
    hide Named, FilledBefore;
    var t := Step(inst, s);
    var k := |s.queue| - |t.queue|;
    StepStrangers(inst, s);
    StepFill(inst, s);
    forall i | 0 <= i < |t.queue|
      ensures t.queue[i].Filled() == FilledBefore(b, t.queue[i].id) + Named(t.fills, t.queue[i].id)
    {
      assert s.queue[k + i].Filled() == FilledBefore(b, s.queue[k + i].id) + Named(s.fills, s.queue[k + i].id);
      if t.fills != s.fills {
        assert t.fills == s.fills + [t.fills[|s.fills|]];
        NamedAppend(s.fills, t.fills[|s.fills|], t.queue[i].id);
        assert k + i > 0 ==> s.queue[0].id != s.queue[k + i].id;
      }
    }
  }

  lemma {:induction false} RunTallies(inst: Instrument, s: MatchState, b: Book)
    requires Live(s.queue) && Strangers(s) && Tallied(s.queue, b, s.fills)
    ensures Tallied(Run(inst, s).queue, b, Run(inst, s).fills)
    decreases Measure(s)
  {
    hide Tallied, Strangers, Step;
    if !Finished(s) {
      StepTallies(inst, s, b);
      StepResidue(inst, s);
      StepShrinks(inst, s);
      RunTallies(inst, Step(inst, s), b);
    }
  }

  // ----- one insert

  /** The order may stand for one that had already traded: an amendment keeps its tally. */
  ghost predicate TalliedWith(q: seq<Order>, b: Book, o: Order, fills: seq<Fill>) {
    forall i :: 0 <= i < |q| ==>
      && q[i].Filled() == (if q[i].id == o.id then o.Filled() else FilledBefore(b, q[i].id)) + Named(fills, q[i].id)
      && (q[i].id == o.id || b.Find(q[i].id).Some?)
  }

  lemma FoundHere(b: Book, side: Side, i: nat)
    requires BookOk(b) && i < |b.Queue(side)|
    ensures b.Find(b.Queue(side)[i].id) == Some(b.Queue(side)[i])
  {
    hide BookOk, Lookup;
    BookOkBySideUnique(b, side);
    LookupAt(b.Queue(side), i);
    SidesApart(b, side, i);
    var _ := LookupFinds(b.Queue(side.Opposite()), b.Queue(side)[i].id);
  }

  lemma AdmittedHere(b: Book, o: Order)
    requires b.instrument.WellFormed() && Admission(b, o) == Accepted
    ensures o.instrument == b.instrument.id && b.Find(o.id).None?
  {
  }

  lemma StillAbsent(b: Book, o: Order)
    requires BookOk(b) && b.Find(o.id).None?
    ensures Matched(b, o).Find(o.id).None?
  {
    hide BookOk, Run, Lookup;
    var side := o.side.Opposite();
    var q, r := b.Queue(side), Run(b.instrument, Start(b, o));
    QueueLive(b, side);
    RunResidue(b.instrument, Start(b, o));
    FindBySide(b, side, o.id);
    var _ := LookupFinds(q, o.id);
    forall i | 0 <= i < |r.queue| ensures r.queue[i].id != o.id {
      ResidueAt(r.queue, q, |q| - |r.queue|, i);
    }
    var _ := LookupFinds(r.queue, o.id);
    FindBySide(Matched(b, o), side, o.id);
  }

  lemma AmendedIsFound(b: Book, id: nat, x: Order)
    requires BookOk(b) && b.Find(id).Some? && x == b.Find(id).value.(quantity := x.quantity, remaining := x.remaining)
    requires 0 < x.remaining <= x.quantity
    ensures b.WithQueue(x.side, Amend(b.Queue(x.side), x)).Find(id) == Some(x)
  {
    hide BookOk, Lookup, Amend;
    var k := FindLocates(b, id);
    BookOkBySideUnique(b, x.side);
    EditAtUnique(b.Queue(x.side), x, k);
    AmendKeepsBook(b, id, x);
    FoundHere(b.WithQueue(x.side, Amend(b.Queue(x.side), x)), x.side, k);
  }

  lemma StartTallied(b: Book, o: Order)
    requires BookOk(b) && b.Find(o.id).None?
    ensures Strangers(Start(b, o)) && Tallied(Start(b, o).queue, b, [])
  {
    hide BookOk, Lookup;
    var side := o.side.Opposite();
    BookOkBySideUnique(b, side);
    forall i | 0 <= i < |b.Queue(side)|
      ensures b.Queue(side)[i].id != o.id && b.Queue(side)[i].Filled() == FilledBefore(b, b.Queue(side)[i].id)
    {
      FoundHere(b, side, i);
    }
  }

  lemma {:induction false} LeftoverTally(b: Book, o: Order)
    requires BookOk(b) && o.remaining <= o.quantity
    ensures var r := Run(b.instrument, Start(b, o));
            r.incoming.remaining > 0 ==> r.incoming.Filled() == o.Filled() + Named(r.fills, o.id)
  {
    hide BookOk, Run, InQueueOrder;
    QueueLive(b, o.side.Opposite());
    RunConserves(b.instrument, Start(b, o));
    var r := Run(b.instrument, Start(b, o));
    var at := RunInQueueOrder(b.instrument, Start(b, o));
    assert r.fills[0..] == r.fills;
    FillNames(r.fills, o, b.Queue(o.side.Opposite()), at, |b.Queue(o.side.Opposite())| - |r.queue|);
    NamedAggressor(r.fills, o.id);
  }

  lemma FillNames(fs: seq<Fill>, o: Order, q: seq<Order>, at: seq<nat>, gone: nat)
    requires InQueueOrder(fs, o, q, at, gone)
    ensures forall i :: 0 <= i < |fs| ==>
              fs[i].aggressorOrder == o.id && exists j :: 0 <= j < |q| && fs[i].restingOrder == q[j].id
  {
    forall i | 0 <= i < |fs|
      ensures fs[i].aggressorOrder == o.id && exists j :: 0 <= j < |q| && fs[i].restingOrder == q[j].id
    {
      assert Against(fs[i], o, q[at[i]]);
    }
  }

  /** Matching names nobody on the incoming order's own side. */
  lemma OwnSideUnnamed(b: Book, o: Order, i: nat)
    requires BookOk(b) && o.remaining <= o.quantity && b.Find(o.id).None? && i < |b.Queue(o.side)|
    ensures Named(Run(b.instrument, Start(b, o)).fills, b.Queue(o.side)[i].id) == 0
  {
    hide BookOk, Run, InQueueOrder, Lookup;
    var q, r, id := b.Queue(o.side.Opposite()), Run(b.instrument, Start(b, o)), b.Queue(o.side)[i].id;
    QueueLive(b, o.side.Opposite());
    var at := RunInQueueOrder(b.instrument, Start(b, o));
    assert r.fills[0..] == r.fills;
    FillNames(r.fills, o, q, at, |q| - |r.queue|);
    SidesApart(b, o.side, i);
    FoundHere(b, o.side, i);
    forall j | 0 <= j < |r.fills| ensures r.fills[j].aggressorOrder != id && r.fills[j].restingOrder != id {
      var k :| 0 <= k < |q| && r.fills[j].restingOrder == q[k].id;
    }
    NamedNone(r.fills, id);
  }

  lemma OppositeTallied(b: Book, o: Order)
    requires BookOk(b) && b.Find(o.id).None?
    ensures var r := Run(b.instrument, Start(b, o)); TalliedWith(r.queue, b, o, r.fills)
  {
    hide BookOk, Run, Lookup, Named, FilledBefore;
    var side := o.side.Opposite();
    QueueLive(b, side);
    StartTallied(b, o);
    RunTallies(b.instrument, Start(b, o), b);
    var q, r := b.Queue(side), Run(b.instrument, Start(b, o));
    RunResidue(b.instrument, Start(b, o));
    forall i | 0 <= i < |r.queue|
      ensures b.Find(r.queue[i].id).Some? && r.queue[i].id != o.id
    {
      ResidueAt(r.queue, q, |q| - |r.queue|, i);
      FoundHere(b, side, |q| - |r.queue| + i);
    }
  }

  lemma OwnTallied(b: Book, o: Order)
    requires BookOk(b) && b.Find(o.id).None? && o.remaining <= o.quantity
    ensures TalliedWith(b.Queue(o.side), b, o, Run(b.instrument, Start(b, o)).fills)
  {
    hide BookOk, Run, Lookup, Named;
    forall i | 0 <= i < |b.Queue(o.side)|
      ensures var x := b.Queue(o.side)[i];
              x.id != o.id && b.Find(x.id) == Some(x) && Named(Run(b.instrument, Start(b, o)).fills, x.id) == 0
    {
      FoundHere(b, o.side, i);
      OwnSideUnnamed(b, o, i);
    }
  }

  lemma PlacedTallied(q: seq<Order>, x: Order, b: Book, o: Order, fills: seq<Fill>)
    requires TalliedWith(q, b, o, fills) && x.id == o.id && x.Filled() == o.Filled() + Named(fills, o.id)
    ensures TalliedWith(Place(q, x), b, o, fills)
  {
    hide Named, FilledBefore, Place;
    var k := PlaceRank(q, x);
    SplicedElements(q, x, k, Place(q, x));
  }

  lemma InsertTallies(b: Book, o: Order, side: Side)
    requires BookOk(b) && o.remaining <= o.quantity && b.instrument.WellFormed()
             && Insert(b, o).result.reject == Accepted
    ensures TalliedWith(Insert(b, o).book.Queue(side), b, o, Insert(b, o).fills)
  {
    hide BookOk, Run, Lookup, TalliedWith, Place, Named, Admission;
    NewIdentifier(b, o);
    OppositeTallied(b, o);
    OwnTallied(b, o);
    MatchedIncoming(b, o);
    LeftoverTally(b, o);
    var r := Run(b.instrument, Start(b, o));
    if Rests(o, r.incoming.remaining) {
      PlacedTallied(b.Queue(o.side), r.incoming, b, o, r.fills);
    }
  }

  /** Nothing is created or lost: what an accepted order asked for is traded, withdrawn from it
      by prevention, or left over, and the left over part is what rests, if anything does; the
      opposite side loses exactly what was traded with it and withdrawn from it. */
  lemma InsertConserves(b: Book, o: Order) returns (leftover: nat)
    requires BookOk(b) && o.remaining <= o.quantity && b.instrument.WellFormed()
             && Insert(b, o).result.reject == Accepted
    ensures var e := Insert(b, o);
            && o.remaining == FillTotal(e.fills) + e.result.stpCancelled + leftover
            && e.result.filled == FillTotal(e.fills)
            && e.book.nextTradeId == b.nextTradeId + |e.fills|
            && Total(b.Queue(o.side.Opposite())) ==
                 Total(e.book.Queue(o.side.Opposite())) + FillTotal(e.fills) + WithdrawnTotal(e.withdrawals)
            && Total(e.book.Queue(o.side)) == Total(b.Queue(o.side)) + (if e.result.rested then leftover else 0)
            && (e.result.rested <==> leftover > 0 && o.kind.Limit? && !o.tif.ImmediateOrCancel?)
            && (e.result.rested ==> o.(remaining := leftover,
                                       quantity := leftover + o.Filled() + FillTotal(e.fills)) in e.book.Queue(o.side))
  {
    hide BookOk, Run, Place, Admission;
    var side := o.side.Opposite();
    QueueLive(b, side);
    RunConserves(b.instrument, Start(b, o));
    var r := Run(b.instrument, Start(b, o));
    leftover := r.incoming.remaining;
    if Rests(o, leftover) {
      PlaceTotal(b.Queue(o.side), r.incoming);
    }
  }

  lemma {:induction false} PlaceTotal(q: seq<Order>, o: Order)
    ensures Total(Place(q, o)) == Total(q) + o.remaining && o in Place(q, o)
  {
    if q == [] || BetterPrice(o.side, o.price, q[0].price) {
      assert ([o] + q)[1..] == q;
    } else {
      PlaceTotal(q[1..], o);
      assert ([q[0]] + Place(q[1..], o))[1..] == Place(q[1..], o);
    }
  }

  // ----- one command, and the run

  /** Every order on the book after a command carries what it had traded before, plus what the
      command reported for it; and it was on the book before unless the command brought it. */
  ghost predicate CarriedOver(q: seq<Order>, b: Book, c: Command, e: Effect<Answer>) {
    forall i :: 0 <= i < |q| ==>
      && q[i].Filled() == FilledBefore(b, q[i].id) + Named(e.fills, q[i].id)
      && (b.Find(q[i].id).Some? <==> !AcceptedAs(c, e.result, q[i].id))
  }

  predicate SameTally(a: Order, b: Order) {
    a.id == b.id && a.Filled() == b.Filled()
  }

  lemma UntouchedCarriesOver(b: Book, side: Side, c: Command, e: Effect<Answer>, q: seq<Order>)
    requires BookOk(b) && e.fills == []
             && !(c.SubmitOrder? && e.result.Submitted? && e.result.submit.reject == Accepted)
    requires forall i :: 0 <= i < |q| ==>
               exists j :: 0 <= j < |b.Queue(side)| && SameTally(q[i], b.Queue(side)[j])
    ensures CarriedOver(q, b, c, e)
  {
    hide BookOk, Lookup;
    forall i | 0 <= i < |q|
      ensures b.Find(q[i].id).Some? && q[i].Filled() == b.Find(q[i].id).value.Filled()
    {
      var j :| 0 <= j < |b.Queue(side)| && SameTally(q[i], b.Queue(side)[j]);
      FoundHere(b, side, j);
    }
  }

  lemma SameCarriesOver(b: Book, side: Side, c: Command, e: Effect<Answer>)
    requires BookOk(b) && e.fills == []
             && !(c.SubmitOrder? && e.result.Submitted? && e.result.submit.reject == Accepted)
    ensures CarriedOver(b.Queue(side), b, c, e)
  {
    hide BookOk, Lookup;
    forall i | 0 <= i < |b.Queue(side)| ensures b.Find(b.Queue(side)[i].id) == Some(b.Queue(side)[i]) {
      FoundHere(b, side, i);
    }
  }

  lemma SubmitCarriesOver(b: Book, o: Order, side: Side)
    requires BookOk(b)
    ensures b.instrument.WellFormed()
    ensures var c := SubmitOrder(o); CarriedOver(Apply(b, c).book.Queue(side), b, c, Apply(b, c))
  {
    hide BookOk, Insert, Lookup, Named;
    BookWellFormed(b);
    var whole := o.(remaining := o.quantity);
    var c := SubmitOrder(o);
    var e := Apply(b, c);
    InsertOutcome(b, whole);
    if e.result.submit.reject == Accepted {
      InsertTallies(b, whole, side);
    } else {
      SameCarriesOver(b, side, c, e);
    }
  }

  lemma InsertOutcome(b: Book, o: Order)
    requires b.instrument.WellFormed()
    ensures Insert(b, o).result.reject != Accepted ==> Insert(b, o) == Refused(b, Insert(b, o).result.reject)
    ensures Insert(b, o).result.reject == Accepted ==> b.Find(o.id).None?
  {
  }

  lemma RemoveCarriesOver(b: Book, id: nat, side: Side, c: Command, e: Effect<Answer>)
    requires BookOk(b) && b.Find(id).Some? && e.fills == [] && !c.SubmitOrder?
    ensures CarriedOver(RemoveOrder(b, b.Find(id).value).Queue(side), b, c, e)
  {
    hide BookOk, Lookup, Without, CarriedOver;
    var o := b.Find(id).value;
    if side == o.side {
      var k := FindLocates(b, id);
      BookOkBySideUnique(b, side);
      WithoutAt(b.Queue(side), k);
      var q, r := b.Queue(side), Without(b.Queue(side), id);
      forall i | 0 <= i < |r| ensures exists j :: 0 <= j < |q| && SameTally(r[i], q[j]) {
        assert SameTally(r[i], q[Past(i, k)]);
      }
      UntouchedCarriesOver(b, side, c, e, r);
    } else {
      SameCarriesOver(b, side, c, e);
    }
  }

  lemma ResizeCarriesOver(b: Book, side: Side, k: nat, x: Order, c: Command, e: Effect<Answer>)
    requires BookOk(b) && e.fills == [] && !c.SubmitOrder? && k < |b.Queue(side)|
    requires x.id == b.Queue(side)[k].id && x.Filled() == b.Queue(side)[k].Filled()
    ensures CarriedOver(b.Queue(side)[k := x], b, c, e)
  {
    hide BookOk, CarriedOver;
    var q := b.Queue(side);
    var r := q[k := x];
    forall i | 0 <= i < |r| ensures exists j :: 0 <= j < |q| && SameTally(r[i], q[j]) {
      assert SameTally(r[i], q[i]);
    }
    UntouchedCarriesOver(b, side, c, e, r);
  }

  lemma RequeueCarriesOver(b: Book, id: nat, amended: Order, side: Side, c: Command, e: Effect<Answer>)
    requires BookOk(b) && b.Find(id).Some? && !c.SubmitOrder? && b.instrument.WellFormed()
    requires amended.id == id && amended.Filled() == b.Find(id).value.Filled() && amended.remaining <= amended.quantity
    requires var f := Insert(RemoveOrder(b, b.Find(id).value), amended); e.book == f.book && e.fills == f.fills
    ensures CarriedOver(e.book.Queue(side), b, c, e)
  {
    hide BookOk, Lookup, Insert, RemoveOrder, Named;
    var o := b.Find(id).value;
    var a := RemoveOrder(b, o);
    RemoveKeepsBook(b, id);
    RemoveInstrument(b, o);
    InsertOutcome(a, amended);
    if Insert(a, amended).result.reject == Accepted {
      InsertTallies(a, amended, side);
      var q := e.book.Queue(side);
      forall i | 0 <= i < |q|
        ensures b.Find(q[i].id).Some? && q[i].Filled() == FilledBefore(b, q[i].id) + Named(e.fills, q[i].id)
      {
        if q[i].id != id {
          RemovedLeavesOthers(b, id, q[i].id);
        }
      }
    } else {
      RemoveCarriesOver(b, id, side, c, e);
    }
  }

  lemma RemovedLeavesOthers(b: Book, id: nat, other: nat)
    requires BookOk(b) && b.Find(id).Some? && other != id && RemoveOrder(b, b.Find(id).value).Find(other).Some?
    ensures b.Find(other) == RemoveOrder(b, b.Find(id).value).Find(other)
  {
    hide BookOk, Lookup, Without;
    var o := b.Find(id).value;
    var a := RemoveOrder(b, o);
    RemoveKeepsBook(b, id);
    var k := FindLocates(b, id);
    BookOkBySideUnique(b, o.side);
    WithoutAt(b.Queue(o.side), k);
    var x := a.Find(other).value;
    var j := FindLocates(a, other);
    if x.side == o.side {
      assert x == b.Queue(x.side)[Past(j, k)];
      FoundHere(b, x.side, Past(j, k));
    } else {
      FoundHere(b, x.side, j);
    }
  }

  lemma ReplaceCarriesOver(b: Book, id: nat, price: int, quantity: nat, sequence: nat, now: int, side: Side)
    requires BookOk(b)
    ensures b.instrument.WellFormed()
    ensures var c := ReplaceOrder(id, price, quantity, sequence, now);
            CarriedOver(Apply(b, c).book.Queue(side), b, c, Apply(b, c))
  {
    hide BookOk, Lookup, Insert, RemoveOrder, CarriedOver, Amend;
    BookWellFormed(b);
    var c := ReplaceOrder(id, price, quantity, sequence, now);
    var e := Apply(b, c);
    if b.Find(id).None? || !b.instrument.IsValidPrice(price) || !b.instrument.IsValidQuantity(quantity) {
      SameCarriesOver(b, side, c, e);
    } else {
      var o := b.Find(id).value;
      var k := FindLocates(b, id);
      if quantity <= o.Filled() {
        RemoveCarriesOver(b, id, side, c, e);
      } else if price == o.price && quantity < o.quantity {
        var m := ReductionKeepsPlace(b, id, quantity, sequence, now);
        ResizeCarriesOver(b, o.side, m, o.(quantity := quantity, remaining := quantity - o.Filled()), c, e);
        SameCarriesOver(b, o.side.Opposite(), c, e);
      } else {
        RequeueCarriesOver(b, id, Amended(o, price, quantity, sequence, now), side, c, e);
      }
    }
  }

  lemma ApplyCarriesOver(b: Book, c: Command, side: Side)
    requires BookOk(b)
    ensures b.instrument.WellFormed() && CarriedOver(Apply(b, c).book.Queue(side), b, c, Apply(b, c))
  {
    hide BookOk, Lookup, Insert, Replace, RemoveOrder, CarriedOver;
    BookWellFormed(b);
    match c
    case SubmitOrder(o) => SubmitCarriesOver(b, o, side);
    case CancelOrder(id) =>
      if b.Find(id).Some? {
        RemoveCarriesOver(b, id, side, c, Apply(b, c));
      } else {
        SameCarriesOver(b, side, c, Apply(b, c));
      }
    case ReplaceOrder(id, price, quantity, sequence, now) =>
        ReplaceCarriesOver(b, id, price, quantity, sequence, now, side);
  }

  /** Conservation over whole runs: each resting order has traded exactly the sum of the
      fills that named it since it was accepted. */
  lemma {:induction false} RestingLedger(inst: Instrument, cmds: seq<Command>, first: nat, side: Side)
    requires inst.WellFormed() && Numbered(cmds, first)
    ensures var q := After(EmptyBook(inst), cmds).Queue(side);
            forall i :: 0 <= i < |q| ==> q[i].quantity - q[i].remaining == TradedSince(inst, cmds, q[i].id)
  {
    hide Apply, BookOk, Fresh, Named, Lookup;
    if cmds != [] {
      var prefix, c := cmds[..|cmds| - 1], cmds[|cmds| - 1];
      var b := After(EmptyBook(inst), prefix);
      RestingLedger(inst, prefix, first, side);
      RestingLedger(inst, prefix, first, side.Opposite());
      RunKeepsBook(inst, prefix, first);
      ApplyCarriesOver(b, c, side);
      var q, e := After(EmptyBook(inst), cmds).Queue(side), Apply(b, c);
      forall i | 0 <= i < |q| ensures q[i].Filled() == TradedSince(inst, cmds, q[i].id) {
        if b.Find(q[i].id).Some? {
          var k := FindLocates(b, q[i].id);
        }
      }
    }
  }
}

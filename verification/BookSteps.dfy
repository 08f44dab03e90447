/** Every command keeps the book invariant, whatever the self-trade policy. */
module BookSteps {
  import opened Types
  import opened Matching
  import opened BookInvariant
  import opened Conservation

  /** The best of `q` is out of reach of an order at `price` on the other side. */
  predicate OutOfReach(side: Side, price: int, q: seq<Order>) {
    q == [] || if side.Buy? then price < q[0].price else q[0].price < price
  }

  predicate Apart(side: Side, p: seq<Order>, q: seq<Order>) {
    p == [] || OutOfReach(side, p[0].price, q)
  }

  /** Nothing on one side can be reached from the other, however deep. */
  lemma NothingCrosses(b: Book)
    requires BookOk(b)
    ensures forall i, j :: 0 <= i < |b.bids| && 0 <= j < |b.asks| ==> b.bids[i].price < b.asks[j].price
  {
    forall i, j | 0 <= i < |b.bids| && 0 <= j < |b.asks|
      ensures b.bids[i].price < b.asks[j].price
    {
      assert i > 0 ==> Precedes(b.bids[0], b.bids[i]);
      assert j > 0 ==> Precedes(b.asks[0], b.asks[j]);
      assert Resting(b.bids[0], Buy, b.instrument) && Resting(b.asks[0], Sell, b.instrument);
    }
  }

  /** The invariant, told from either side. */
  lemma BookOkBySide(b: Book, side: Side)
    requires b.instrument.WellFormed()
    ensures BookOk(b) <==>
            && SideOk(b.Queue(side), side, b.instrument)
            && SideOk(b.Queue(side.Opposite()), side.Opposite(), b.instrument)
            && Disjoint(b.Queue(side), b.Queue(side.Opposite()))
            && Apart(side, b.Queue(side), b.Queue(side.Opposite()))
  {
  }

  lemma BookOkBySideUnique(b: Book, side: Side)
    requires BookOk(b)
    ensures UniqueIds(b.Queue(side))
  {
  }

  lemma FreshBySide(b: Book, side: Side, sequence: nat)
    ensures Fresh(b, sequence) <==>
            SequencedBefore(b.Queue(side), sequence) && SequencedBefore(b.Queue(side.Opposite()), sequence)
  {
  }

  lemma FindBySide(b: Book, side: Side, id: nat)
    ensures b.Find(id).None? <==> Lookup(b.Queue(side), id).None? && Lookup(b.Queue(side.Opposite()), id).None?
  {
  }

  /** Same identifier at the same place in the queue. */
  predicate SamePlace(a: Order, b: Order) {
    a.id == b.id && a.price == b.price && a.sequence == b.sequence
  }

  ghost predicate PlacesFrom(q': seq<Order>, q: seq<Order>) {
    forall i :: 0 <= i < |q'| ==> exists j :: 0 <= j < |q| && SamePlace(q'[i], q[j])
  }

  lemma PlaceOf(q': seq<Order>, q: seq<Order>, i: nat) returns (j: nat)
    requires PlacesFrom(q', q) && i < |q'|
    ensures j < |q| && SamePlace(q'[i], q[j])
  {
    hide SamePlace;
    var o := q'[i];
    var k :| 0 <= k < |q| && SamePlace(o, q[k]);
    j := k;
  }

  /** A side may lose orders or change their sizes without harm to the rest of the book. */
  lemma ShrinkKeepsBook(b: Book, side: Side, q': seq<Order>)
    requires BookOk(b)
    requires SideOk(q', side, b.instrument) && PlacesFrom(q', b.Queue(side))
    ensures BookOk(b.WithQueue(side, q'))
  {
    hide PlacesFrom;
    var q, p := b.Queue(side), b.Queue(side.Opposite());
    BookOkBySide(b, side);
    forall i, j | 0 <= i < |q'| && 0 <= j < |p|
      ensures q'[i].id != p[j].id
    {
      var k := PlaceOf(q', q, i);
    }
    if q' != [] {
      var k := PlaceOf(q', q, 0);
      assert Resting(q[0], side, b.instrument) && (k > 0 ==> Precedes(q[0], q[k]));
    }
    BookOkBySide(b.WithQueue(side, q'), side);
  }

  lemma ShrinkKeepsFresh(b: Book, side: Side, q': seq<Order>, sequence: nat)
    requires Fresh(b, sequence) && PlacesFrom(q', b.Queue(side))
    ensures Fresh(b.WithQueue(side, q'), sequence)
  {
    FreshBySide(b, side, sequence);
    FreshBySide(b.WithQueue(side, q'), side, sequence);
  }

  /** Matching leaves the opposite side in order, with nothing on it that was not there. */
  lemma MatchedSideOk(b: Book, o: Order)
    requires BookOk(b)
    ensures var r := Run(b.instrument, Start(b, o));
            && SideOk(r.queue, o.side.Opposite(), b.instrument)
            && PlacesFrom(r.queue, b.Queue(o.side.Opposite()))
  {
    var q := b.Queue(o.side.Opposite());
    var r := Run(b.instrument, Start(b, o));
    var k := |q| - |r.queue|;
    RunResidue(b.instrument, Start(b, o));
    ResidueKeepsSide(r.queue, q, k, o.side.Opposite(), b.instrument);
    forall i | 0 <= i < |r.queue|
      ensures SamePlace(r.queue[i], q[k + i])
    {
      ResidueAt(r.queue, q, k, i);
    }
  }

  lemma QueueLive(b: Book, side: Side)
    requires BookOk(b)
    ensures b.instrument.WellFormed() && Live(b.Queue(side))
  {
    BookOkBySide(b, side);
    forall i | 0 <= i < |b.Queue(side)| ensures 0 < b.Queue(side)[i].remaining <= b.Queue(side)[i].quantity {
      assert Resting(b.Queue(side)[i], side, b.instrument);
    }
  }

  /** The book in the middle of a match. */
  function During(b: Book, side: Side, s: MatchState): Book {
    b.WithQueue(side.Opposite(), s.queue).(nextTradeId := s.nextTradeId)
  }

  lemma StepKeepsBook(b: Book, side: Side, s: MatchState)
    requires BookOk(b) && b.Queue(side.Opposite()) == s.queue && !Finished(s)
    ensures BookOk(During(b, side, Step(b.instrument, s)))
  {
    var t := Step(b.instrument, s);
    var k := |s.queue| - |t.queue|;
    BookOkBySide(b, side);
    StepResidue(b.instrument, s);
    ResidueKeepsSide(t.queue, s.queue, k, side.Opposite(), b.instrument);
    forall i | 0 <= i < |t.queue|
      ensures SamePlace(t.queue[i], s.queue[k + i])
    {
      ResidueAt(t.queue, s.queue, k, i);
    }
    ShrinkKeepsBook(b, side.Opposite(), t.queue);
  }

  lemma MatchedKeepsBook(b: Book, o: Order)
    requires BookOk(b)
    ensures BookOk(Matched(b, o))
    ensures Fresh(b, o.sequence) ==> Fresh(Matched(b, o), o.sequence)
  {
    MatchedSideOk(b, o);
    ShrinkKeepsBook(b, o.side.Opposite(), Run(b.instrument, Start(b, o)).queue);
    if Fresh(b, o.sequence) {
      ShrinkKeepsFresh(b, o.side.Opposite(), Run(b.instrument, Start(b, o)).queue, o.sequence);
    }
  }

  lemma RestKeepsBook(b: Book, o: Order)
    requires BookOk(b) && Fresh(b, o.sequence)
    requires Resting(o, o.side, b.instrument) && OutOfReach(o.side, o.price, b.Queue(o.side.Opposite()))
    requires forall i :: 0 <= i < |b.Queue(o.side)| ==> b.Queue(o.side)[i].id != o.id
    requires forall i :: 0 <= i < |b.Queue(o.side.Opposite())| ==> b.Queue(o.side.Opposite())[i].id != o.id
    ensures BookOk(Rested(b, o)) && Fresh(Rested(b, o), o.sequence + 1)
  {
    var q, p, c := b.Queue(o.side), b.Queue(o.side.Opposite()), Rested(b, o);
    BookOkBySide(b, o.side);
    FreshBySide(b, o.side, o.sequence);
    PlaceKeepsSide(q, o, o.side, b.instrument);
    forall i | 0 <= i < |Place(q, o)|
      ensures Place(q, o)[i].sequence <= o.sequence
      ensures forall j :: 0 <= j < |p| ==> Place(q, o)[i].id != p[j].id
    {
      assert Place(q, o)[i] in q || Place(q, o)[i] == o;
    }
    BookOkBySide(c, o.side);
    FreshBySide(c, o.side, o.sequence + 1);
  }

  /** Matching changes nothing of the incoming order but its sizes. */
  lemma MatchedIncoming(b: Book, o: Order)
    requires BookOk(b) && o.remaining <= o.quantity
    ensures var left := Run(b.instrument, Start(b, o)).incoming;
            left == o.(remaining := left.remaining, quantity := left.quantity)
  {
    QueueLive(b, o.side.Opposite());
    RunConserves(b.instrument, Start(b, o));
  }

  /** What is left of an admitted order may rest on the matched book. */
  lemma LeftoverMayRest(b: Book, o: Order)
    requires BookOk(b) && o.remaining <= o.quantity
    requires Validate(b, o) == Accepted
    requires Rests(o, Run(b.instrument, Start(b, o)).incoming.remaining)
    requires !Killed(b, o)
    ensures var r := Run(b.instrument, Start(b, o));
            && r.incoming == o.(remaining := r.incoming.remaining, quantity := r.incoming.quantity)
            && Resting(r.incoming, o.side, b.instrument)
            && OutOfReach(o.side, r.incoming.price, r.queue)
            && (forall i :: 0 <= i < |b.Queue(o.side)| ==> b.Queue(o.side)[i].id != o.id)
            && (forall i :: 0 <= i < |r.queue| ==> r.queue[i].id != o.id)
  {
    var r := Run(b.instrument, Start(b, o));
    RunResidue(b.instrument, Start(b, o));
    RunConserves(b.instrument, Start(b, o));
    MatchedSideOk(b, o);
    FindBySide(b, o.side, o.id);
    var _ := LookupFinds(b.Queue(o.side), o.id);
    var _ := LookupFinds(b.Queue(o.side.Opposite()), o.id);
  }

  lemma ExecuteKeepsBook(b: Book, o: Order)
    requires BookOk(b) && Fresh(b, o.sequence) && o.remaining <= o.quantity
    requires Validate(b, o) == Accepted && !Killed(b, o)
    ensures BookOk(Execute(b, o).book) && Fresh(Execute(b, o).book, o.sequence + 1)
    ensures Execute(b, o).book.instrument == b.instrument
  {
    MatchedKeepsBook(b, o);
    var r := Run(b.instrument, Start(b, o));
    if Rests(o, r.incoming.remaining) {
      LeftoverMayRest(b, o);
      assert Matched(b, o).Queue(o.side) == b.Queue(o.side) && Matched(b, o).Queue(o.side.Opposite()) == r.queue;
      RestKeepsBook(Matched(b, o), r.incoming);
    }
  }

  /** The order book invariant, never-crossed included, survives every insert. */
  lemma InsertKeepsBook(b: Book, o: Order)
    requires BookOk(b) && Fresh(b, o.sequence) && o.remaining <= o.quantity
    ensures BookOk(Insert(b, o).book) && Fresh(Insert(b, o).book, o.sequence + 1)
    ensures Insert(b, o).book.instrument == b.instrument
    ensures Insert(b, o).result.reject != Accepted ==> Insert(b, o) == Refused(b, Insert(b, o).result.reject)
  {
    if Admission(b, o) == Accepted {
      ExecuteKeepsBook(b, o);
    }
  }

  /** A found order stands on its own side, under its own identifier. */
  lemma FindLocates(b: Book, id: nat) returns (k: nat)
    requires BookOk(b) && b.Find(id).Some?
    ensures var o := b.Find(id).value;
            o.id == id && k < |b.Queue(o.side)| && b.Queue(o.side)[k] == o && Resting(o, o.side, b.instrument)
  {
    var i := LookupFinds(b.bids, id);
    var j := LookupFinds(b.asks, id);
    k := if Lookup(b.bids, id).Some? then i else j;
    if Lookup(b.bids, id).Some? {
      assert Resting(b.bids[i], Buy, b.instrument);
    } else {
      assert Resting(b.asks[j], Sell, b.instrument);
    }
  }

  lemma RemoveKeepsBook(b: Book, id: nat)
    requires BookOk(b) && b.Find(id).Some?
    ensures var c := RemoveOrder(b, b.Find(id).value);
            BookOk(c) && forall n: nat :: Fresh(b, n) ==> Fresh(c, n)
  {
    var o := b.Find(id).value;
    var k := FindLocates(b, id);
    var q := b.Queue(o.side);
    WithoutKeepsSide(q, k, o.side, b.instrument);
    WithoutAt(q, k);
    forall i | 0 <= i < |Without(q, id)| ensures SamePlace(Without(q, id)[i], q[Past(i, k)]) {}
    ShrinkKeepsBook(b, o.side, Without(q, id));
    forall n: nat | Fresh(b, n) ensures Fresh(RemoveOrder(b, o), n) {
      ShrinkKeepsFresh(b, o.side, Without(q, id), n);
    }
  }

  lemma RemoveShrinks(b: Book, id: nat)
    requires BookOk(b) && b.Find(id).Some?
    ensures var c := RemoveOrder(b, b.Find(id).value); |c.bids| + |c.asks| == |b.bids| + |b.asks| - 1
  {
    hide BookOk, Lookup, Without;
    var o := b.Find(id).value;
    var k := FindLocates(b, id);
    BookOkBySideUnique(b, o.side);
    WithoutAt(b.Queue(o.side), k);
  }

  lemma RemoveInstrument(b: Book, o: Order)
    ensures RemoveOrder(b, o).instrument == b.instrument
  {
  }

  lemma RemovedIsGone(b: Book, id: nat)
    requires BookOk(b) && b.Find(id).Some?
    ensures RemoveOrder(b, b.Find(id).value).Find(id).None?
  {
    var o := b.Find(id).value;
    var k := FindLocates(b, id);
    var q, p, c := b.Queue(o.side), b.Queue(o.side.Opposite()), RemoveOrder(b, o);
    BookOkBySide(b, o.side);
    WithoutAt(q, k);
    assert forall j :: 0 <= j < |p| ==> p[j].id != q[k].id;
    var _ := LookupFinds(c.Queue(o.side), id);
    var _ := LookupFinds(p, id);
    FindBySide(c, o.side, id);
  }

  lemma AmendKeepsBook(b: Book, id: nat, o: Order)
    requires BookOk(b) && b.Find(id).Some?
    requires o == b.Find(id).value.(quantity := o.quantity, remaining := o.remaining)
    requires 0 < o.remaining <= o.quantity
    ensures var c := b.WithQueue(o.side, Amend(b.Queue(o.side), o));
            BookOk(c) && forall n: nat :: Fresh(b, n) ==> Fresh(c, n)
  {
    var k := FindLocates(b, id);
    var q := b.Queue(o.side);
    AmendKeepsSide(q, k, o, o.side, b.instrument);
    forall i | 0 <= i < |q| ensures SamePlace(q[k := o][i], q[i]) {}
    ShrinkKeepsBook(b, o.side, q[k := o]);
    forall n: nat | Fresh(b, n) ensures Fresh(b.WithQueue(o.side, q[k := o]), n) {
      ShrinkKeepsFresh(b, o.side, q[k := o], n);
    }
  }

  lemma FreshLater(b: Book, sequence: nat, later: nat)
    requires Fresh(b, sequence) && sequence <= later
    ensures Fresh(b, later)
  {
  }

  lemma BookWellFormed(b: Book)
    requires BookOk(b)
    ensures b.instrument.WellFormed()
  {
  }

  lemma ReplaceKeepsBook(b: Book, id: nat, newPrice: int, newQuantity: nat, sequence: nat, now: int)
    requires BookOk(b) && Fresh(b, sequence)
    ensures var c := Replace(b, id, newPrice, newQuantity, sequence, now).book;
            BookOk(c) && Fresh(c, sequence + 1) && c.instrument == b.instrument
  {
    hide BookOk, Fresh, Lookup, Insert, Without, Amend, Instrument.IsValidPrice, Instrument.IsValidQuantity;
    BookWellFormed(b);
    FreshLater(b, sequence, sequence + 1);
    if b.Find(id).Some? && b.instrument.IsValidPrice(newPrice) && b.instrument.IsValidQuantity(newQuantity) {
      var previous := b.Find(id).value;
      var _ := FindLocates(b, id);
      if newQuantity > previous.Filled() && newPrice == previous.price && newQuantity < previous.quantity {
        AmendKeepsBook(b, id, previous.(quantity := newQuantity, remaining := newQuantity - previous.Filled()));
      } else {
        RemoveKeepsBook(b, id);
        FreshLater(RemoveOrder(b, previous), sequence, sequence + 1);
        if newQuantity > previous.Filled() {
          InsertKeepsBook(RemoveOrder(b, previous), Amended(previous, newPrice, newQuantity, sequence, now));
        }
      }
    }
  }
}

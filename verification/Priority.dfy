/** Price-time priority: who a command trades with, and who stays ahead of whom. */
module Priority {
  import opened Types
  import opened Matching
  import opened BookInvariant
  import opened BookSteps
  import opened BookRuns

  /** Fill `f` of the aggressor `o` against the resting order `r`. */
  predicate Against(f: Fill, o: Order, r: Order) {
    && f.aggressorOrder == o.id && f.aggressorAccount == o.account && f.aggressorSide == o.side
    && f.restingOrder == r.id && f.restingAccount == r.account
    && f.price == r.price && (o.kind.Market? || if o.side.Buy? then r.price <= o.price else r.price >= o.price)
    && 0 < f.quantity <= r.remaining && f.restingFilled == (f.quantity == r.remaining)
  }

  /** The fills `fs` meet the orders at places `at` of the queue `q`, each once and in queue order,
      none of them past the first `gone` places and the one after. */
  ghost predicate InQueueOrder(fs: seq<Fill>, o: Order, q: seq<Order>, at: seq<nat>, gone: nat) {
    && |at| == |fs|
    && (forall i, j :: 0 <= i < j < |at| ==> at[i] < at[j])
    && (forall i :: 0 <= i < |at| ==> at[i] < |q| && at[i] <= gone && Against(fs[i], o, q[at[i]]))
  }

  lemma {:induction false} RunInQueueOrder(inst: Instrument, s: MatchState) returns (at: seq<nat>)
    requires Live(s.queue)
    ensures var r := Run(inst, s);
            && |s.fills| <= |r.fills| && r.fills[..|s.fills|] == s.fills && |r.queue| <= |s.queue|
            && InQueueOrder(r.fills[|s.fills|..], s.incoming, s.queue, at, |s.queue| - |r.queue|)
    decreases Measure(s)
  {
    hide InQueueOrder, Run, Step;
    at := [];
    NoFills(s.incoming, s.queue, 0);
    RunUnfolds(inst, s);
    if !Finished(s) {
      var t := Step(inst, s);
      var r := Run(inst, t);
      StepResidue(inst, s);
      StepShrinks(inst, s);
      StepFill(inst, s);
      var later := RunInQueueOrder(inst, t);
      if |t.queue| == |s.queue| {
        RunUnfolds(inst, t);
        assert r == t && t.fills[|t.fills|..] == [];
        if |t.fills| > |s.fills| {
          at := [0] + [];
          FrontFill(s, t, t, []);
        }
      } else {
        LaterOrders(s, t, r, later);
        at := Shifted(later);
        if |t.fills| > |s.fills| {
          at := [0] + at;
          FrontFill(s, t, r, Shifted(later));
        }
      }
    }
  }

  lemma RunUnfolds(inst: Instrument, s: MatchState)
    ensures Run(inst, s) == if Finished(s) then s else Run(inst, Step(inst, s))
    ensures s.fills[|s.fills|..] == []
  {
  }

  /** A step reports a fill against the front, or none, and stops for good where it spares the front. */
  lemma StepFill(inst: Instrument, s: MatchState)
    requires !Finished(s) && Live(s.queue)
    ensures var t := Step(inst, s);
            && SameTerms(t.incoming, s.incoming)
            && (|t.queue| == |s.queue| ==> Finished(t))
            && (|t.queue| == |s.queue| || t.queue == s.queue[1..])
            && (t.fills == s.fills || (|t.fills| == |s.fills| + 1 && t.fills[..|s.fills|] == s.fills
                                       && Against(t.fills[|s.fills|], s.incoming, s.queue[0])))
  {
  }

  predicate SameTerms(a: Order, b: Order) {
    a == b.(remaining := a.remaining, quantity := a.quantity)
  }

  /** A fill against the front comes before fills further back. */
  lemma FrontFill(s: MatchState, t: MatchState, r: MatchState, at: seq<nat>)
    requires |t.fills| == |s.fills| + 1 <= |r.fills| && |r.queue| <= |s.queue| && s.queue != []
    requires r.fills[..|t.fills|] == t.fills && t.fills[..|s.fills|] == s.fills
    requires Against(t.fills[|s.fills|], s.incoming, s.queue[0])
    requires InQueueOrder(r.fills[|t.fills|..], s.incoming, s.queue, at, |s.queue| - |r.queue|)
    requires forall i :: 0 <= i < |at| ==> at[i] > 0
    ensures r.fills[..|s.fills|] == s.fills
    ensures InQueueOrder(r.fills[|s.fills|..], s.incoming, s.queue, [0] + at, |s.queue| - |r.queue|)
  {
    var fs, gs := r.fills[|s.fills|..], r.fills[|t.fills|..];
    assert fs == [t.fills[|s.fills|]] + gs;
    assert r.fills[..|s.fills|] == r.fills[..|t.fills|][..|s.fills|];
    var up := [0] + at;
    forall i | 0 <= i < |up|
      ensures up[i] < |s.queue| && up[i] <= |s.queue| - |r.queue| && Against(fs[i], s.incoming, s.queue[up[i]])
    {
      assert i > 0 ==> up[i] == at[i - 1] && fs[i] == gs[i - 1];
    }
  }

  function Shifted(at: seq<nat>): (r: seq<nat>)
    ensures |r| == |at| && forall i :: 0 <= i < |at| ==> r[i] == at[i] + 1
  {
    seq(|at|, i requires 0 <= i < |at| => at[i] + 1)
  }

  /** Places in the queue after a step that used up its front are one further back before it. */
  lemma LaterOrders(s: MatchState, t: MatchState, r: MatchState, at: seq<nat>)
    requires s.queue != [] && t.queue == s.queue[1..] && SameTerms(t.incoming, s.incoming) && |r.queue| <= |t.queue|
    requires |t.fills| <= |r.fills|
             && InQueueOrder(r.fills[|t.fills|..], t.incoming, t.queue, at, |t.queue| - |r.queue|)
    ensures InQueueOrder(r.fills[|t.fills|..], s.incoming, s.queue, Shifted(at), |s.queue| - |r.queue|)
  {
    var fs, up := r.fills[|t.fills|..], Shifted(at);
    forall i | 0 <= i < |up|
      ensures up[i] < |s.queue| && up[i] <= |s.queue| - |r.queue| && Against(fs[i], s.incoming, s.queue[up[i]])
    {
      assert s.queue[up[i]] == t.queue[at[i]];
    }
    assert forall i, j :: 0 <= i < j < |up| ==> up[i] < up[j];
  }

  /** Every fill of a command is against the front of the best level it can reach, at that
      level's price and within its own limit: the fills meet the opposite side from the front,
      in order, and whoever stood ahead of a filled order is off the book afterwards. */
  lemma FillsFromTheFront(b: Book, o: Order) returns (at: seq<nat>)
    requires BookOk(b) && o.remaining <= o.quantity
    ensures var q, e := b.Queue(o.side.Opposite()), Insert(b, o);
            var q' := e.book.Queue(o.side.Opposite());
            && |q'| <= |q|
            && InQueueOrder(e.fills, o, q, at, |q| - |q'|)
            && forall i, j :: 0 <= i < |at| && 0 <= j < at[i] ==> e.book.Find(q[j].id).None?
  {
    hide BookOk, Run, Lookup, Place, Admission, InQueueOrder;
    BookWellFormed(b);
    var q, e := b.Queue(o.side.Opposite()), Insert(b, o);
    var q' := e.book.Queue(o.side.Opposite());
    QueueLive(b, o.side.Opposite());
    if Admission(b, o) != Accepted {
      at := [];
      NoFills(o, q, 0);
    } else {
      var r := Run(b.instrument, Start(b, o));
      at := RunInQueueOrder(b.instrument, Start(b, o));
      MatchedIncoming(b, o);
      assert r.fills[0..] == r.fills && q' == r.queue;
      RunResidue(b.instrument, Start(b, o));
      PlaceBound(e.fills, o, q, at, |q| - |q'|);
      forall i, j | 0 <= i < |at| && 0 <= j < at[i]
        ensures e.book.Find(q[j].id).None?
      {
        OvertakenIsGone(b, o, j);
      }
    }
  }

  lemma NoFills(o: Order, q: seq<Order>, gone: nat)
    ensures InQueueOrder([], o, q, [], gone)
  {
  }

  lemma PlaceBound(fs: seq<Fill>, o: Order, q: seq<Order>, at: seq<nat>, gone: nat)
    requires InQueueOrder(fs, o, q, at, gone)
    ensures forall i :: 0 <= i < |at| ==> at[i] <= gone && at[i] < |q|
  {
  }

  /** The first places of the opposite side, used up by an insert, hold nobody afterwards. */
  lemma OvertakenIsGone(b: Book, o: Order, j: nat)
    requires BookOk(b) && o.remaining <= o.quantity && Admission(b, o) == Accepted
    requires j < |b.Queue(o.side.Opposite())| - |Run(b.instrument, Start(b, o)).queue|
    ensures var id := b.Queue(o.side.Opposite())[j].id;
            Insert(b, o).book.Find(id).None?
  {
    hide BookOk, Run, Lookup, Place, Admission;
    BookWellFormed(b);
    var side := o.side.Opposite();
    var q, r, c := b.Queue(side), Run(b.instrument, Start(b, o)), Insert(b, o).book;
    var id := q[j].id;
    QueueLive(b, side);
    RunResidue(b.instrument, Start(b, o));
    MatchedIncoming(b, o);
    SidesApart(b, side, j);
    forall i | 0 <= i < |r.queue| ensures r.queue[i].id != id {
      ResidueAt(r.queue, q, |q| - |r.queue|, i);
      SidesApart(b, side, |q| - |r.queue| + i);
      UniqueAt(b, side, j, |q| - |r.queue| + i);
    }
    var _ := LookupFinds(r.queue, id);
    FindBySide(c, o.side, id);
    assert id != o.id by {
      NewIdentifier(b, o);
      FindBySide(b, side, o.id);
      var _ := LookupFinds(q, o.id);
    }
    assert side.Opposite() == o.side;
    if Rests(o, r.incoming.remaining) {
      NotPlaced(b.Queue(o.side), r.incoming, id);
    } else {
      var _ := LookupFinds(b.Queue(o.side), id);
    }
  }

  lemma NewIdentifier(b: Book, o: Order)
    requires b.instrument.WellFormed() && Admission(b, o) == Accepted
    ensures b.Find(o.id).None?
  {
  }

  lemma SidesApart(b: Book, side: Side, j: nat)
    requires BookOk(b) && j < |b.Queue(side)|
    ensures forall i :: 0 <= i < |b.Queue(side.Opposite())| ==> b.Queue(side.Opposite())[i].id != b.Queue(side)[j].id
  {
  }

  lemma UniqueAt(b: Book, side: Side, i: nat, j: nat)
    requires BookOk(b) && i < j < |b.Queue(side)|
    ensures b.Queue(side)[i].id != b.Queue(side)[j].id
  {
    BookOkBySideUnique(b, side);
  }

  lemma NotPlaced(q: seq<Order>, o: Order, id: nat)
    requires o.id != id && forall i :: 0 <= i < |q| ==> q[i].id != id
    ensures Lookup(Place(q, o), id).None?
  {
    var k := PlaceRank(q, o);
    var i := LookupFinds(Place(q, o), id);
    SplicedElements(q, o, k, Place(q, o));
  }

  // ----- who stays ahead of whom

  /** Whatever in `q'` was numbered before `n` stands in `q` at the same price and number. */
  ghost predicate Inherited(q': seq<Order>, q: seq<Order>, n: nat) {
    forall i :: 0 <= i < |q'| && q'[i].sequence < n ==> exists j :: 0 <= j < |q| && SamePlace(q'[i], q[j])
  }

  lemma InheritedAll(q': seq<Order>, q: seq<Order>, n: nat)
    requires PlacesFrom(q', q)
    ensures Inherited(q', q, n)
  {
  }

  lemma InheritedSame(q: seq<Order>, n: nat)
    ensures Inherited(q, q, n)
  {
    forall i | 0 <= i < |q| ensures exists j :: 0 <= j < |q| && SamePlace(q[i], q[j]) {
      assert SamePlace(q[i], q[i]);
    }
  }

  lemma InheritedTransitive(q2: seq<Order>, q1: seq<Order>, q0: seq<Order>, n: nat)
    requires Inherited(q2, q1, n) && Inherited(q1, q0, n)
    ensures Inherited(q2, q0, n)
  {
    forall i | 0 <= i < |q2| && q2[i].sequence < n
      ensures exists j :: 0 <= j < |q0| && SamePlace(q2[i], q0[j])
    {
      var k :| 0 <= k < |q1| && SamePlace(q2[i], q1[k]);
      var j :| 0 <= j < |q0| && SamePlace(q1[k], q0[j]);
      assert SamePlace(q2[i], q0[j]);
    }
  }

  lemma InheritedPlaced(q: seq<Order>, o: Order, n: nat)
    requires n <= o.sequence
    ensures Inherited(Place(q, o), q, n)
  {
    var k := PlaceRank(q, o);
    var r := Place(q, o);
    SplicedElements(q, o, k, r);
    forall i | 0 <= i < |r| && r[i].sequence < n
      ensures exists j :: 0 <= j < |q| && SamePlace(r[i], q[j])
    {
      assert SamePlace(r[i], q[if i < k then i else i - 1]);
    }
  }

  lemma InsertInherits(b: Book, o: Order, side: Side, n: nat)
    requires BookOk(b) && o.remaining <= o.quantity && n <= o.sequence
    ensures Inherited(Insert(b, o).book.Queue(side), b.Queue(side), n)
  {
    hide BookOk, Run, Place, Admission, Inherited, PlacesFrom;
    InheritedSame(b.Queue(side), n);
    QueueLive(b, side);
    if Admission(b, o) == Accepted {
      var r := Run(b.instrument, Start(b, o));
      MatchedSideOk(b, o);
      InheritedAll(r.queue, b.Queue(o.side.Opposite()), n);
      MatchedIncoming(b, o);
      InheritedPlaced(b.Queue(o.side), r.incoming, n);
    }
  }

  lemma RemoveInherits(b: Book, id: nat, side: Side, n: nat)
    requires BookOk(b) && b.Find(id).Some?
    ensures Inherited(RemoveOrder(b, b.Find(id).value).Queue(side), b.Queue(side), n)
  {
    hide BookOk, Lookup, Without, Inherited;
    var o := b.Find(id).value;
    InheritedSame(b.Queue(side), n);
    if side == o.side {
      var k := FindLocates(b, id);
      var q := b.Queue(o.side);
      BookOkBySideUnique(b, o.side);
      WithoutAt(q, k);
      var r := Without(q, id);
      forall i | 0 <= i < |r| ensures exists j :: 0 <= j < |q| && SamePlace(r[i], q[j]) {
        assert SamePlace(r[i], q[Past(i, k)]);
      }
      InheritedAll(r, q, n);
    }
  }

  /** A same-price reduction leaves every order of the book at its place: the side changes
      at the one position where the order stands, and there only in size. */
  lemma ReductionKeepsPlace(b: Book, id: nat, quantity: nat, sequence: nat, now: int) returns (k: nat)
    requires BookOk(b) && b.Find(id).Some? && b.instrument.IsValidQuantity(quantity)
    requires b.Find(id).value.Filled() < quantity < b.Find(id).value.quantity
    ensures var o := b.Find(id).value;
            var q, e := b.Queue(o.side), Replace(b, id, o.price, quantity, sequence, now);
            && k < |q| && q[k] == o
            && e.book == b.WithQueue(o.side, q[k := o.(quantity := quantity, remaining := quantity - o.Filled())])
            && e.result.priorityRetained && e.result.reject == Accepted && e.fills == [] && e.withdrawals == []
  {
    hide BookOk, Lookup, Amend;
    var o := b.Find(id).value;
    k := FindLocates(b, id);
    BookOkBySideUnique(b, o.side);
    EditAtUnique(b.Queue(o.side), o.(quantity := quantity, remaining := quantity - o.Filled()), k);
  }

  lemma ReplaceInherits(b: Book, id: nat, price: int, quantity: nat, sequence: nat, now: int, side: Side, n: nat)
    requires BookOk(b) && n <= sequence
    ensures Inherited(Replace(b, id, price, quantity, sequence, now).book.Queue(side), b.Queue(side), n)
  {
    hide BookOk, Lookup, Insert, Inherited, RemoveOrder, Amend;
    BookWellFormed(b);
    InheritedSame(b.Queue(side), n);
    if b.Find(id).Some? && b.instrument.IsValidPrice(price) && b.instrument.IsValidQuantity(quantity) {
      var o := b.Find(id).value;
      RemoveInherits(b, id, side, n);
      if quantity > o.Filled() {
        if price == o.price && quantity < o.quantity {
          var k := ReductionKeepsPlace(b, id, quantity, sequence, now);
          ResizedInherits(b.Queue(o.side), k, o.(quantity := quantity, remaining := quantity - o.Filled()), n);
        } else {
          RemoveKeepsBook(b, id);
          var _ := FindLocates(b, id);
          InsertInherits(RemoveOrder(b, o), Amended(o, price, quantity, sequence, now), side, n);
          InheritedTransitive(Replace(b, id, price, quantity, sequence, now).book.Queue(side),
                              RemoveOrder(b, o).Queue(side), b.Queue(side), n);
        }
      }
    }
  }

  lemma ResizedInherits(q: seq<Order>, k: nat, o: Order, n: nat)
    requires k < |q| && SamePlace(o, q[k])
    ensures Inherited(q[k := o], q, n)
  {
    var r := q[k := o];
    forall i | 0 <= i < |r| ensures exists j :: 0 <= j < |q| && SamePlace(r[i], q[j]) {
      assert SamePlace(r[i], q[i]);
    }
  }

  lemma ApplyInherits(b: Book, c: Command, side: Side, n: nat)
    requires BookOk(b) && (Number(c).Some? ==> n <= Number(c).value)
    ensures b.instrument.WellFormed() && Inherited(Apply(b, c).book.Queue(side), b.Queue(side), n)
  {
    hide BookOk, Insert, Replace, RemoveOrder, Lookup, Inherited;
    BookWellFormed(b);
    InheritedSame(b.Queue(side), n);
    match c
    case SubmitOrder(o) => InsertInherits(b, o.(remaining := o.quantity), side, n);
    case CancelOrder(id) =>
      if b.Find(id).Some? {
        RemoveInherits(b, id, side, n);
      }
    case ReplaceOrder(id, price, quantity, sequence, now) =>
      ReplaceInherits(b, id, price, quantity, sequence, now, side, n);
  }

  lemma {:induction false} NumberedFrom(cmds: seq<Command>, first: nat)
    requires Numbered(cmds, first)
    ensures first <= NextNumber(cmds, first)
  {
    if cmds != [] {
      NumberedFrom(cmds[..|cmds| - 1], first);
    }
  }

  lemma {:induction false} RunInherits(b: Book, cmds: seq<Command>, side: Side, n: nat)
    requires BookOk(b) && Fresh(b, n) && Numbered(cmds, n)
    ensures BookOk(After(b, cmds)) && Fresh(After(b, cmds), NextNumber(cmds, n))
    ensures Inherited(After(b, cmds).Queue(side), b.Queue(side), n)
  {
    hide BookOk, Fresh, Inherited, Apply;
    BookWellFormed(b);
    if cmds == [] {
      InheritedSame(b.Queue(side), n);
    } else {
      var prefix, c := cmds[..|cmds| - 1], cmds[|cmds| - 1];
      RunInherits(b, prefix, side, n);
      NumberedFrom(prefix, n);
      ApplyKeepsBook(After(b, prefix), c, NextNumber(prefix, n));
      ApplyInherits(After(b, prefix), c, side, n);
      InheritedTransitive(After(b, cmds).Queue(side), After(b, prefix).Queue(side), b.Queue(side), n);
    }
  }

  /** Time priority over whole runs: an order ahead of another stays ahead of it for as long as
      neither leaves nor is re-queued (which would give it a number of the run's own). */
  lemma StaysAhead(b: Book, cmds: seq<Command>, n: nat, side: Side, x: nat, y: nat, x': nat, y': nat)
    requires BookOk(b) && Fresh(b, n) && Numbered(cmds, n)
    requires x < y < |b.Queue(side)| && x' < |After(b, cmds).Queue(side)| && y' < |After(b, cmds).Queue(side)|
    requires After(b, cmds).Queue(side)[x'].id == b.Queue(side)[x].id && After(b, cmds).Queue(side)[x'].sequence < n
    requires After(b, cmds).Queue(side)[y'].id == b.Queue(side)[y].id && After(b, cmds).Queue(side)[y'].sequence < n
    ensures x' < y'
    ensures SamePlace(After(b, cmds).Queue(side)[x'], b.Queue(side)[x])
  {
    hide After, BookOk, Fresh;
    BookWellFormed(b);
    RunInherits(b, cmds, side, n);
    OrderKept(b, After(b, cmds), side, n, x, y, x', y');
  }

  lemma OrderKept(b: Book, c: Book, side: Side, n: nat, x: nat, y: nat, x': nat, y': nat)
    requires BookOk(b) && BookOk(c) && Inherited(c.Queue(side), b.Queue(side), n)
    requires x < y < |b.Queue(side)| && x' < |c.Queue(side)| && y' < |c.Queue(side)|
    requires c.Queue(side)[x'].id == b.Queue(side)[x].id && c.Queue(side)[x'].sequence < n
    requires c.Queue(side)[y'].id == b.Queue(side)[y].id && c.Queue(side)[y'].sequence < n
    ensures x' < y' && SamePlace(c.Queue(side)[x'], b.Queue(side)[x])
  {
    hide BookOk, Sorted;
    var q, q' := b.Queue(side), c.Queue(side);
    SideFacts(b, side);
    SideFacts(c, side);
    var i :| 0 <= i < |q| && SamePlace(q'[x'], q[i]);
    var j :| 0 <= j < |q| && SamePlace(q'[y'], q[j]);
    OnlyPlace(q, i, x);
    OnlyPlace(q, j, y);
    PrecedesAt(q, x, y);
    if y' < x' {
      PrecedesAt(q', y', x');
    }
    assert q[x].id != q[y].id;
  }

  lemma SideFacts(b: Book, side: Side)
    requires BookOk(b)
    ensures Sorted(b.Queue(side)) && UniqueIds(b.Queue(side))
    ensures forall i :: 0 <= i < |b.Queue(side)| ==> b.Queue(side)[i].side == side
  {
    forall i | 0 <= i < |b.Queue(side)| ensures b.Queue(side)[i].side == side {
      assert Resting(b.Queue(side)[i], side, b.instrument);
    }
  }

  lemma OnlyPlace(q: seq<Order>, i: nat, j: nat)
    requires UniqueIds(q) && i < |q| && j < |q| && q[i].id == q[j].id
    ensures i == j
  {
  }

  lemma PrecedesAt(q: seq<Order>, i: nat, j: nat)
    requires Sorted(q) && i < j < |q|
    ensures Precedes(q[i], q[j])
  {
  }
}

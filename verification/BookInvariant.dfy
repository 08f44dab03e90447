/** What every book keeps: both sides in strict priority order, live orders
    only, unique identifiers, and never a bid that reaches an ask. */
module BookInvariant {
  import opened Types
  import opened Matching

  ghost predicate Resting(o: Order, side: Side, inst: Instrument)
    requires inst.WellFormed()
  {
    && o.side == side
    && o.instrument == inst.id
    && o.kind.Limit?
    && (o.tif.Day? || o.tif.GoodTilCancelled?)
    && 0 < o.remaining <= o.quantity
    && inst.IsValidPrice(o.price)
  }

  ghost predicate UniqueIds(q: seq<Order>) {
    forall i, j :: 0 <= i < j < |q| ==> q[i].id != q[j].id
  }

  ghost predicate SideOk(q: seq<Order>, side: Side, inst: Instrument)
    requires inst.WellFormed()
  {
    Sorted(q) && UniqueIds(q) && forall i :: 0 <= i < |q| ==> Resting(q[i], side, inst)
  }

  ghost predicate Disjoint(p: seq<Order>, q: seq<Order>) {
    forall i, j :: 0 <= i < |p| && 0 <= j < |q| ==> p[i].id != q[j].id
  }

  predicate NotCrossed(b: Book) {
    b.bids == [] || b.asks == [] || b.bids[0].price < b.asks[0].price
  }

  ghost predicate BookOk(b: Book) {
    && b.instrument.WellFormed()
    && SideOk(b.bids, Buy, b.instrument)
    && SideOk(b.asks, Sell, b.instrument)
    && Disjoint(b.bids, b.asks)
    && NotCrossed(b)
  }

  /** Every resting order was sequenced before `sequence`. */
  ghost predicate SequencedBefore(q: seq<Order>, sequence: nat) {
    forall i :: 0 <= i < |q| ==> q[i].sequence < sequence
  }

  ghost predicate Fresh(b: Book, sequence: nat) {
    SequencedBefore(b.bids, sequence) && SequencedBefore(b.asks, sequence)
  }

  // ----- what matching leaves of a queue

  /** `o'` is `o` with some quantity gone, in the same place of the queue. */
  predicate ShrunkFrom(o': Order, o: Order) {
    && o' == o.(remaining := o'.remaining, quantity := o'.quantity)
    && 0 < o'.remaining <= o.remaining
    && o.Filled() <= o'.Filled()
    && o'.quantity <= o.quantity
  }

  /** `q'` is `q` with its first `k` orders gone and the next one shrunk. */
  predicate Residue(q': seq<Order>, q: seq<Order>, k: nat) {
    && k <= |q|
    && |q'| == |q| - k
    && (q' != [] ==> ShrunkFrom(q'[0], q[k]) && q'[1..] == q[k + 1..])
  }

  ghost predicate Live(q: seq<Order>) {
    forall i :: 0 <= i < |q| ==> 0 < q[i].remaining <= q[i].quantity
  }

  lemma StepResidue(inst: Instrument, s: MatchState)
    requires !Finished(s) && Live(s.queue)
    ensures var t := Step(inst, s);
            |t.queue| <= |s.queue| && Residue(t.queue, s.queue, |s.queue| - |t.queue|) && Live(t.queue)
  {
    var t := Step(inst, s);
    if |t.queue| == |s.queue| {
      assert t.queue[1..] == s.queue[1..];
    } else {
      assert t.queue == s.queue[1..];
      assert t.queue != [] ==> t.queue[1..] == s.queue[2..];
    }
  }

  lemma StepShrinks(inst: Instrument, s: MatchState)
    requires !Finished(s)
    ensures Measure(Step(inst, s)) < Measure(s)
    ensures Run(inst, s) == Run(inst, Step(inst, s))
    ensures Step(inst, s).incoming.remaining <= s.incoming.remaining
  {
  }

  lemma ResidueTransitive(q2: seq<Order>, q1: seq<Order>, q0: seq<Order>, k: nat, l: nat)
    requires Residue(q1, q0, k) && Residue(q2, q1, l)
    ensures Residue(q2, q0, k + l)
  {
    if q2 != [] {
      if l == 0 {
      } else {
        assert q1[l] == q1[1..][l - 1] == q0[k + 1..][l - 1] == q0[k + l];
        assert q1[l + 1..] == q1[1..][l..] == q0[k + 1..][l..] == q0[k + l + 1..];
      }
    }
  }

  lemma {:induction false} RunResidue(inst: Instrument, s: MatchState)
    requires Live(s.queue)
    ensures var r := Run(inst, s);
            && Finished(r) && Live(r.queue)
            && |r.queue| <= |s.queue| && Residue(r.queue, s.queue, |s.queue| - |r.queue|)
    decreases Measure(s)
  {
    if !Finished(s) {
      var t := Step(inst, s);
      StepResidue(inst, s);
      RunResidue(inst, t);
      ResidueTransitive(Run(inst, t).queue, t.queue, s.queue, |s.queue| - |t.queue|, |t.queue| - |Run(inst, t).queue|);
    }
  }

  lemma ResidueAt(q': seq<Order>, q: seq<Order>, k: nat, i: nat)
    requires Residue(q', q, k) && i < |q'|
    ensures ShrunkFrom(q'[i], q[k + i]) || (i > 0 && q'[i] == q[k + i])
  {
    if i > 0 {
      assert q'[i] == q'[1..][i - 1] == q[k + 1..][i - 1];
    }
  }

  lemma ResidueKeepsSide(q': seq<Order>, q: seq<Order>, k: nat, side: Side, inst: Instrument)
    requires inst.WellFormed() && SideOk(q, side, inst) && Residue(q', q, k)
    ensures SideOk(q', side, inst)
  {
    forall i | 0 <= i < |q'|
      ensures Resting(q'[i], side, inst) && q'[i].id == q[k + i].id
           && q'[i].price == q[k + i].price && q'[i].sequence == q[k + i].sequence
    {
      ResidueAt(q', q, k, i);
      assert Resting(q[k + i], side, inst);
    }
    forall i, j | 0 <= i < j < |q'|
      ensures Precedes(q'[i], q'[j]) && q'[i].id != q'[j].id
    {
      assert Precedes(q[k + i], q[k + j]);
    }
  }

  // ----- edits, by position

  lemma {:induction false} PlaceAt(q: seq<Order>, o: Order, k: nat)
    requires k <= |q|
    requires forall i :: 0 <= i < k ==> !BetterPrice(o.side, o.price, q[i].price)
    requires k < |q| ==> BetterPrice(o.side, o.price, q[k].price)
    ensures Place(q, o) == q[..k] + [o] + q[k..]
  {
    if k > 0 {
      PlaceAt(q[1..], o, k - 1);
      assert q[..k] == [q[0]] + q[1..][..k - 1];
    }
  }

  lemma {:induction false} PlaceRank(q: seq<Order>, o: Order) returns (k: nat)
    ensures k <= |q| && Place(q, o) == q[..k] + [o] + q[k..]
    ensures forall i :: 0 <= i < k ==> !BetterPrice(o.side, o.price, q[i].price)
    ensures k < |q| ==> BetterPrice(o.side, o.price, q[k].price)
  {
    k := 0;
    while k < |q| && !BetterPrice(o.side, o.price, q[k].price)
      invariant k <= |q|
      invariant forall i :: 0 <= i < k ==> !BetterPrice(o.side, o.price, q[i].price)
    {
      k := k + 1;
    }
    PlaceAt(q, o, k);
  }

  lemma {:induction false} EditAt(q: seq<Order>, o: Order, k: nat)
    requires k < |q| && q[k].id == o.id
    requires forall i :: 0 <= i < k ==> q[i].id != o.id
    ensures Lookup(q, o.id) == Some(q[k])
    ensures Without(q, o.id) == q[..k] + q[k + 1..]
    ensures Amend(q, o) == q[k := o]
  {
    if k > 0 {
      EditAt(q[1..], o, k - 1);
      assert q[..k] == [q[0]] + q[1..][..k - 1];
    }
  }

  lemma {:induction false} LookupFinds(q: seq<Order>, id: nat) returns (k: nat)
    ensures Lookup(q, id).Some? ==>
              && k < |q| && q[k].id == id && Lookup(q, id) == Some(q[k])
              && forall i :: 0 <= i < k ==> q[i].id != id
    ensures Lookup(q, id).None? ==> forall i :: 0 <= i < |q| ==> q[i].id != id
  {
    if q == [] || q[0].id == id {
      k := 0;
    } else {
      k := LookupFinds(q[1..], id);
      k := k + 1;
      assert forall i :: 0 < i < |q| ==> q[i] == q[1..][i - 1];
    }
  }

  lemma EditAtUnique(q: seq<Order>, o: Order, k: nat)
    requires UniqueIds(q) && k < |q| && q[k].id == o.id
    ensures Without(q, o.id) == q[..k] + q[k + 1..] && Amend(q, o) == q[k := o]
  {
    EditAt(q, o, k);
  }

  lemma LookupAt(q: seq<Order>, k: nat)
    requires k < |q| && UniqueIds(q)
    ensures Lookup(q, q[k].id) == Some(q[k])
  {
    EditAt(q, q[k], k);
  }

  // ----- each edit keeps a side in order

  lemma PlaceAround(q: seq<Order>, o: Order, k: nat)
    requires Sorted(q) && k <= |q| && SequencedBefore(q, o.sequence)
    requires forall i :: 0 <= i < |q| ==> q[i].side == o.side
    requires forall i :: 0 <= i < k ==> !BetterPrice(o.side, o.price, q[i].price)
    requires k < |q| ==> BetterPrice(o.side, o.price, q[k].price)
    ensures forall i :: 0 <= i < |q| ==> if i < k then Precedes(q[i], o) else Precedes(o, q[i])
  {
    forall i | k <= i < |q| ensures Precedes(o, q[i]) {
      assert i > k ==> Precedes(q[k], q[i]);
    }
  }

  lemma SplicedElements(q: seq<Order>, o: Order, k: nat, r: seq<Order>)
    requires k <= |q| && r == q[..k] + [o] + q[k..]
    ensures |r| == |q| + 1
    ensures forall i :: 0 <= i < |r| ==> r[i] == if i < k then q[i] else if i == k then o else q[i - 1]
    ensures forall x :: x in r <==> x in q || x == o
  {
    forall x | x in q ensures x in r {
      var i :| 0 <= i < |q| && q[i] == x;
      assert r[if i < k then i else i + 1] == x;
    }
    assert r[k] == o;
  }

  lemma PlaceKeepsSide(q: seq<Order>, o: Order, side: Side, inst: Instrument)
    requires inst.WellFormed() && SideOk(q, side, inst) && Resting(o, side, inst)
    requires SequencedBefore(q, o.sequence)
    requires forall i :: 0 <= i < |q| ==> q[i].id != o.id
    ensures SideOk(Place(q, o), side, inst)
    ensures forall x :: x in Place(q, o) <==> x in q || x == o
    ensures |Place(q, o)| == |q| + 1
  {
    var k := PlaceRank(q, o);
    PlaceAround(q, o, k);
    SplicedElements(q, o, k, Place(q, o));
  }

  lemma WithoutAt(q: seq<Order>, k: nat)
    requires UniqueIds(q) && k < |q|
    ensures var r := Without(q, q[k].id); |r| == |q| - 1 && forall i :: 0 <= i < |r| ==> r[i] == q[Past(i, k)]
  {
    EditAt(q, q[k], k);
  }

  lemma SkippedElements(q: seq<Order>, k: nat, r: seq<Order>)
    requires UniqueIds(q) && k < |q|
    requires |r| == |q| - 1 && forall i :: 0 <= i < |r| ==> r[i] == q[Past(i, k)]
    ensures forall x :: x in r <==> x in q && x.id != q[k].id
  {
    forall x | x in q && x.id != q[k].id ensures x in r {
      var i :| 0 <= i < |q| && q[i] == x;
      assert r[if i < k then i else i - 1] == x;
    }
    forall i | 0 <= i < |r| ensures r[i] in q && r[i].id != q[k].id {
      assert r[i] == q[Past(i, k)];
    }
  }

  lemma WithoutElements(q: seq<Order>, k: nat)
    requires UniqueIds(q) && k < |q|
    ensures forall x :: x in Without(q, q[k].id) <==> x in q && x.id != q[k].id
  {
    WithoutAt(q, k);
    SkippedElements(q, k, Without(q, q[k].id));
  }

  lemma WithoutKeepsSide(q: seq<Order>, k: nat, side: Side, inst: Instrument)
    requires inst.WellFormed() && SideOk(q, side, inst) && k < |q|
    ensures SideOk(Without(q, q[k].id), side, inst)
  {
    var r := Without(q, q[k].id);
    WithoutAt(q, k);
    forall i, j | 0 <= i < j < |r|
      ensures Precedes(r[i], r[j]) && r[i].id != r[j].id
    {
      assert Precedes(q[Past(i, k)], q[Past(j, k)]);
    }
  }

  lemma AmendKeepsSide(q: seq<Order>, k: nat, o: Order, side: Side, inst: Instrument)
    requires inst.WellFormed() && SideOk(q, side, inst) && k < |q|
    requires o.id == q[k].id && o.price == q[k].price && o.sequence == q[k].sequence && Resting(o, side, inst)
    ensures Amend(q, o) == q[k := o]
    ensures SideOk(q[k := o], side, inst)
  {
    EditAt(q, o, k);
    var r := q[k := o];
    forall i, j | 0 <= i < j < |r|
      ensures Precedes(r[i], r[j]) && r[i].id != r[j].id
    {
      assert Precedes(q[i], q[j]);
    }
  }
}

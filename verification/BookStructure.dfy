/** How slab, queues, index and price levels of one side hang together, and what
    each primitive edit of the book does to them and to the side they spell out. */
module BookStructure {
  import opened Types
  import opened Matching
  import opened BookInvariant
  import opened Slab
  import opened Flattening

  function TickPrice(inst: Instrument, t: nat): int
    requires inst.WellFormed()
  {
    inst.LadderBase() + t * inst.tickSize
  }

  /** Handle `h` is a live order of `side`, queued at tick `t` and found by its identifier. */
  ghost predicate Seated(side: Side, inst: Instrument, nodes: seq<OrderNode>, tickOf: map<nat, nat>, idx: map<nat, nat>,
                         t: nat, h: nat)
    requires inst.WellFormed()
  {
    && h < |nodes| && h in tickOf && tickOf[h] == t
    && nodes[h].order.side == side && nodes[h].order.price == TickPrice(inst, t)
    && nodes[h].order.id in idx && idx[nodes[h].order.id] == h
  }

  ghost predicate SideFits(side: Side, inst: Instrument, nodes: seq<OrderNode>, levels: seq<PriceLevel>,
                           queues: seq<seq<nat>>, tickOf: map<nat, nat>, idx: map<nat, nat>)
    requires inst.WellFormed()
  {
    && |levels| == |queues| == inst.TickCount()
    && (forall t :: 0 <= t < |queues| ==> Linked(nodes, levels[t], queues[t]))
    && (forall t, i :: 0 <= t < |queues| && 0 <= i < |queues[t]| ==>
        Seated(side, inst, nodes, tickOf, idx, t, queues[t][i]))
  }

  lemma FitsInSlab(side: Side, inst: Instrument, nodes: seq<OrderNode>, levels: seq<PriceLevel>,
                   queues: seq<seq<nat>>, tickOf: map<nat, nat>, idx: map<nat, nat>)
    requires inst.WellFormed() && SideFits(side, inst, nodes, levels, queues, tickOf, idx)
    ensures AllInSlab(nodes, queues)
  {
    hide Total;
  }

  // ----- edits elsewhere do not matter

  lemma LinkedFrame(nodes: seq<OrderNode>, level: PriceLevel, q: seq<nat>, nodes': seq<OrderNode>)
    requires Linked(nodes, level, q) && |nodes'| <= NULL_HANDLE
    requires forall i :: 0 <= i < |q| ==> q[i] < |nodes'| && nodes'[q[i]] == nodes[q[i]]
    ensures Linked(nodes', level, q) && OrdersAt(nodes', q) == OrdersAt(nodes, q)
  {
    hide Total;
  }

  lemma SideFrame(side: Side, inst: Instrument, nodes: seq<OrderNode>, levels: seq<PriceLevel>, queues: seq<seq<nat>>,
                  tickOf: map<nat, nat>, idx: map<nat, nat>, nodes': seq<OrderNode>, tickOf': map<nat, nat>,
                  idx': map<nat, nat>)
    requires inst.WellFormed() && SideFits(side, inst, nodes, levels, queues, tickOf, idx) && |nodes'| <= NULL_HANDLE
    requires forall h :: h in tickOf && h < |nodes| && nodes[h].order.side == side ==>
               && h < |nodes'| && nodes'[h] == nodes[h] && h in tickOf' && tickOf'[h] == tickOf[h]
               && (nodes[h].order.id in idx ==>
                   nodes[h].order.id in idx' && idx'[nodes[h].order.id] == idx[nodes[h].order.id])
    ensures SideFits(side, inst, nodes', levels, queues, tickOf', idx')
    ensures AllInSlab(nodes, queues) && AllInSlab(nodes', queues)
    ensures forall descending :: SideOf(nodes', queues, descending) == SideOf(nodes, queues, descending)
  {
    hide Linked, SideOf;
    FitsInSlab(side, inst, nodes, levels, queues, tickOf, idx);
    forall t, i | 0 <= t < |queues| && 0 <= i < |queues[t]|
      ensures Seated(side, inst, nodes', tickOf', idx', t, queues[t][i]) && nodes'[queues[t][i]] == nodes[queues[t][i]]
    {
      assert Seated(side, inst, nodes, tickOf, idx, t, queues[t][i]);
    }
    forall t | 0 <= t < |queues|
      ensures Linked(nodes', levels[t], queues[t]) && InSlab(nodes', queues[t])
              && OrdersAt(nodes', queues[t]) == OrdersAt(nodes, queues[t])
    {
      LinkedFrame(nodes, levels[t], queues[t], nodes');
    }
    forall descending ensures SideOf(nodes', queues, descending) == SideOf(nodes, queues, descending) {
      SideSame(nodes, queues, nodes', descending);
    }
  }

  /** Handles queued at one tick are queued at no other. */
  lemma ElsewhereUntouched(side: Side, inst: Instrument, nodes: seq<OrderNode>, levels: seq<PriceLevel>,
                           queues: seq<seq<nat>>,
                           tickOf: map<nat, nat>, idx: map<nat, nat>, t: nat, u: nat)
    requires inst.WellFormed() && SideFits(side, inst, nodes, levels, queues, tickOf, idx)
    requires t < |queues| && u < |queues| && t != u
    ensures forall i :: 0 <= i < |queues[u]| ==> queues[u][i] !in queues[t]
  {
    hide Linked;
    forall i | 0 <= i < |queues[u]| ensures queues[u][i] !in queues[t] {
      assert Seated(side, inst, nodes, tickOf, idx, u, queues[u][i]);
      forall j | 0 <= j < |queues[t]| ensures queues[t][j] != queues[u][i] {
        assert Seated(side, inst, nodes, tickOf, idx, t, queues[t][j]);
      }
    }
  }

  // ----- changing the size of one order in place

  lemma {:induction false} TotalChange(os: seq<Order>, k: nat, o: Order)
    requires k < |os|
    ensures Total(os[k := o]) + os[k].remaining == Total(os) + o.remaining
  {
    if k == 0 {
      assert os[k := o][1..] == os[1..];
    } else {
      TotalChange(os[1..], k - 1, o);
      assert os[k := o][1..] == os[1..][k - 1 := o];
    }
  }

  lemma LinkedChange(nodes: seq<OrderNode>, level: PriceLevel, q: seq<nat>, k: nat, o: Order, total: nat)
    requires Linked(nodes, level, q) && k < |q| && q[k] < |nodes|
    requires total + nodes[q[k]].order.remaining == level.total + o.remaining
    ensures var nodes' := nodes[q[k] := nodes[q[k]].(order := o)];
            && InSlab(nodes, q) && InSlab(nodes', q) && OrdersAt(nodes', q) == OrdersAt(nodes, q)[k := o]
            && Linked(nodes', level.(total := total), q)
  {
    hide Total;
    var nodes' := nodes[q[k] := nodes[q[k]].(order := o)];
    assert OrdersAt(nodes', q) == OrdersAt(nodes, q)[k := o];
    TotalChange(OrdersAt(nodes, q), k, o);
  }

  /** Where order `k` of tick `t` stands on its side. */
  ghost function Position(nodes: seq<OrderNode>, queues: seq<seq<nat>>, descending: bool, t: nat, k: nat): nat
    requires AllInSlab(nodes, queues) && t < |queues|
  {
    |Ahead(nodes, queues, descending, t)| + k
  }

  lemma PositionAt(nodes: seq<OrderNode>, queues: seq<seq<nat>>, descending: bool, t: nat, k: nat)
    requires AllInSlab(nodes, queues) && t < |queues| && k < |queues[t]|
    ensures Position(nodes, queues, descending, t, k) < |SideOf(nodes, queues, descending)|
    ensures SideOf(nodes, queues, descending)[Position(nodes, queues, descending, t, k)] == nodes[queues[t][k]].order
  {
    SideSplit(nodes, queues, descending, t);
    var os := OrdersAt(nodes, queues[t]);
    assert os[k] == nodes[queues[t][k]].order;
  }

  lemma ChangeFits(side: Side, inst: Instrument, nodes: seq<OrderNode>, levels: seq<PriceLevel>, queues: seq<seq<nat>>,
                   tickOf: map<nat, nat>, idx: map<nat, nat>, t: nat, k: nat, o: Order, total: nat)
    requires inst.WellFormed() && SideFits(side, inst, nodes, levels, queues, tickOf, idx)
    requires t < |queues| && k < |queues[t]| && queues[t][k] < |nodes|
    requires var was := nodes[queues[t][k]].order;
             o.id == was.id && o.side == was.side && o.price == was.price
             && total + was.remaining == levels[t].total + o.remaining
    ensures var h := queues[t][k];
            var nodes' := nodes[h := nodes[h].(order := o)];
            && SideFits(side, inst, nodes', levels[t := levels[t].(total := total)], queues, tickOf, idx)
            && AllInSlab(nodes, queues) && AllInSlab(nodes', queues)
            && forall d :: Position(nodes, queues, d, t, k) < |SideOf(nodes, queues, d)|
                        && SideOf(nodes', queues, d) == SideOf(nodes, queues, d)[Position(nodes, queues, d, t, k) := o]
  {
    hide Linked, SideOf, Ahead, Behind;
    var h := queues[t][k];
    var nodes', levels' := nodes[h := nodes[h].(order := o)], levels[t := levels[t].(total := total)];
    FitsInSlab(side, inst, nodes, levels, queues, tickOf, idx);
    LinkedChange(nodes, levels[t], queues[t], k, o, total);
    forall u | 0 <= u < |queues| && u != t
      ensures Linked(nodes', levels'[u], queues[u]) && OrdersAt(nodes', queues[u]) == OrdersAt(nodes, queues[u])
    {
      ElsewhereUntouched(side, inst, nodes, levels, queues, tickOf, idx, t, u);
      LinkedSlab(nodes, levels[u], queues[u]);
      LinkedFrame(nodes, levels[u], queues[u], nodes');
    }
    forall u, i | 0 <= u < |queues| && 0 <= i < |queues[u]|
      ensures Seated(side, inst, nodes', tickOf, idx, u, queues[u][i])
    {
      assert Seated(side, inst, nodes, tickOf, idx, u, queues[u][i]);
    }
    forall d ensures Position(nodes, queues, d, t, k) < |SideOf(nodes, queues, d)|
                  && SideOf(nodes', queues, d) == SideOf(nodes, queues, d)[Position(nodes, queues, d, t, k) := o]
    {
      SideSplit(nodes, queues, d, t);
      SideUpdate(nodes, queues, nodes', queues, d, t);
    }
  }

  lemma LinkedSlab(nodes: seq<OrderNode>, level: PriceLevel, q: seq<nat>)
    requires Linked(nodes, level, q)
    ensures |nodes| <= NULL_HANDLE && InSlab(nodes, q)
  {
  }

  // ----- taking one order out

  lemma DropFits(side: Side, inst: Instrument, nodes: seq<OrderNode>, levels: seq<PriceLevel>, queues: seq<seq<nat>>,
                 tickOf: map<nat, nat>, idx: map<nat, nat>, t: nat, k: nat, nodes': seq<OrderNode>, level': PriceLevel)
    requires inst.WellFormed() && SideFits(side, inst, nodes, levels, queues, tickOf, idx)
    requires t < |queues| && k < |queues[t]| && queues[t][k] < |nodes|
    requires OnlyLinksOf(nodes, nodes', queues[t]) && Linked(nodes', level', queues[t][..k] + queues[t][k + 1..])
    ensures var h := queues[t][k];
            var queues' := queues[t := queues[t][..k] + queues[t][k + 1..]];
            && SideFits(side, inst, nodes', levels[t := level'], queues', tickOf - {h}, idx - {nodes[h].order.id})
            && AllInSlab(nodes, queues) && AllInSlab(nodes', queues')
            && forall d :: var p, q := Position(nodes, queues, d, t, k), SideOf(nodes, queues, d);
                           p < |q| && q[p] == nodes[h].order && SideOf(nodes', queues', d) == q[..p] + q[p + 1..]
  {
    hide Linked, SideOf, Ahead, Behind;
    var h, r := queues[t][k], queues[t][..k] + queues[t][k + 1..];
    var queues' := queues[t := r];
    FitsInSlab(side, inst, nodes, levels, queues, tickOf, idx);
    assert Skips(r, queues[t], k);
    LinkedSlab(nodes', level', r);
    forall u | 0 <= u < |queues| && u != t
      ensures Linked(nodes', levels[u], queues[u]) && InSlab(nodes', queues[u])
              && OrdersAt(nodes', queues[u]) == OrdersAt(nodes, queues[u])
    {
      ElsewhereUntouched(side, inst, nodes, levels, queues, tickOf, idx, t, u);
      LinkedSlab(nodes, levels[u], queues[u]);
      LinkedFrame(nodes, levels[u], queues[u], nodes');
    }
    DropSeats(side, inst, nodes, levels, queues, tickOf, idx, t, k, nodes', r);
    forall d ensures var p, q := Position(nodes, queues, d, t, k), SideOf(nodes, queues, d);
                     p < |q| && q[p] == nodes[h].order && SideOf(nodes', queues', d) == q[..p] + q[p + 1..]
    {
      var os := OrdersAt(nodes, queues[t]);
      assert OrdersAt(nodes', r) == os[..k] + os[k + 1..];
      PositionAt(nodes, queues, d, t, k);
      SideSplit(nodes, queues, d, t);
      SideUpdate(nodes, queues, nodes', queues', d, t);
      SkipInside(Ahead(nodes, queues, d, t), os, Behind(nodes, queues, d, t), k);
    }
  }

  lemma SkipInside(a: seq<Order>, b: seq<Order>, c: seq<Order>, k: nat)
    requires k < |b|
    ensures var s, p := a + b + c, |a| + k; a + (b[..k] + b[k + 1..]) + c == s[..p] + s[p + 1..]
  {
  }

  lemma DropSeats(side: Side, inst: Instrument, nodes: seq<OrderNode>, levels: seq<PriceLevel>, queues: seq<seq<nat>>,
                  tickOf: map<nat, nat>, idx: map<nat, nat>, t: nat, k: nat, nodes': seq<OrderNode>, r: seq<nat>)
    requires inst.WellFormed() && SideFits(side, inst, nodes, levels, queues, tickOf, idx)
    requires t < |queues| && k < |queues[t]| && queues[t][k] < |nodes| && Skips(r, queues[t], k)
    requires OnlyLinksOf(nodes, nodes', queues[t])
    ensures var h, queues' := queues[t][k], queues[t := r];
            forall u, i :: 0 <= u < |queues'| && 0 <= i < |queues'[u]| ==>
              Seated(side, inst, nodes', tickOf - {h}, idx - {nodes[h].order.id}, u, queues'[u][i])
  {
    hide Linked;
    var h, queues' := queues[t][k], queues[t := r];
    assert Seated(side, inst, nodes, tickOf, idx, t, h);
    QueueDistinct(side, inst, nodes, levels, queues, tickOf, idx, t);
    forall u, i | 0 <= u < |queues'| && 0 <= i < |queues'[u]|
      ensures Seated(side, inst, nodes', tickOf - {h}, idx - {nodes[h].order.id}, u, queues'[u][i])
    {
      var j := if u == t then Past(i, k) else i;
      assert queues'[u][i] == queues[u][j] && Seated(side, inst, nodes, tickOf, idx, u, queues[u][j]);
      assert u == t ==> j != k;
    }
  }

  lemma QueueDistinct(side: Side, inst: Instrument, nodes: seq<OrderNode>, levels: seq<PriceLevel>,
                      queues: seq<seq<nat>>,
                      tickOf: map<nat, nat>, idx: map<nat, nat>, t: nat)
    requires inst.WellFormed() && SideFits(side, inst, nodes, levels, queues, tickOf, idx) && t < |queues|
    ensures Distinct(queues[t])
  {
  }

  // ----- putting one order at the back of its tick

  lemma PushFits(side: Side, inst: Instrument, nodes: seq<OrderNode>, levels: seq<PriceLevel>, queues: seq<seq<nat>>,
                 tickOf: map<nat, nat>, idx: map<nat, nat>, t: nat, h: nat, nodes': seq<OrderNode>, level': PriceLevel)
    requires inst.WellFormed() && SideFits(side, inst, nodes, levels, queues, tickOf, idx)
    requires t < |queues| && h < |nodes| && h !in tickOf
    requires nodes[h].order.side == side && nodes[h].order.price == TickPrice(inst, t)
    requires nodes[h].order.id in idx && idx[nodes[h].order.id] == h
    requires OnlyLinksOf(nodes, nodes', queues[t] + [h]) && Linked(nodes', level', queues[t] + [h])
    ensures var queues' := queues[t := queues[t] + [h]];
            && SideFits(side, inst, nodes', levels[t := level'], queues', tickOf[h := t], idx)
            && AllInSlab(nodes, queues) && AllInSlab(nodes', queues')
            && forall d :: SideOf(nodes', queues', d) ==
                           Ahead(nodes, queues, d, t) + (OrdersAt(nodes, queues[t]) + [nodes[h].order])
                           + Behind(nodes, queues, d, t)
  {
    hide Linked, SideOf, Ahead, Behind;
    var r := queues[t] + [h];
    var queues' := queues[t := r];
    FitsInSlab(side, inst, nodes, levels, queues, tickOf, idx);
    LinkedSlab(nodes', level', r);
    forall u, i | 0 <= u < |queues| && 0 <= i < |queues[u]| ensures queues[u][i] != h {
      assert Seated(side, inst, nodes, tickOf, idx, u, queues[u][i]);
    }
    forall u | 0 <= u < |queues| && u != t
      ensures Linked(nodes', levels[u], queues[u]) && InSlab(nodes', queues[u])
              && OrdersAt(nodes', queues[u]) == OrdersAt(nodes, queues[u])
    {
      ElsewhereUntouched(side, inst, nodes, levels, queues, tickOf, idx, t, u);
      LinkedSlab(nodes, levels[u], queues[u]);
      LinkedFrame(nodes, levels[u], queues[u], nodes');
    }
    forall u, i | 0 <= u < |queues'| && 0 <= i < |queues'[u]|
      ensures Seated(side, inst, nodes', tickOf[h := t], idx, u, queues'[u][i])
    {
      assert i < |queues[u]| ==> Seated(side, inst, nodes, tickOf, idx, u, queues[u][i]);
    }
    forall d ensures SideOf(nodes', queues', d) ==
                     Ahead(nodes, queues, d, t) + (OrdersAt(nodes, queues[t]) + [nodes[h].order])
                     + Behind(nodes, queues, d, t)
    {
      assert OrdersAt(nodes', r) == OrdersAt(nodes, queues[t]) + [nodes[h].order];
      SideUpdate(nodes, queues, nodes', queues', d, t);
    }
  }

  lemma TickPriceOrder(inst: Instrument, t: nat, u: nat)
    requires inst.WellFormed() && t < u
    ensures TickPrice(inst, t) < TickPrice(inst, u)
  {
    TicksApart(t, u, inst.tickSize);
  }

  lemma TicksApart(t: nat, u: nat, tick: int)
    requires t < u && tick >= 1
    ensures t * tick < u * tick
  {
    var n := u - t;
    assert u * tick == t * tick + n * tick;
    assert n * tick >= 1;
  }

  /** The back of its tick is where price-time priority puts a new arrival. */
  lemma PushIsPlace(side: Side, inst: Instrument, nodes: seq<OrderNode>, levels: seq<PriceLevel>, queues: seq<seq<nat>>,
                    tickOf: map<nat, nat>, idx: map<nat, nat>, t: nat, o: Order)
    requires inst.WellFormed() && SideFits(side, inst, nodes, levels, queues, tickOf, idx) && AllInSlab(nodes, queues)
    requires t < |queues| && o.side == side && o.price == TickPrice(inst, t)
    ensures Place(SideOf(nodes, queues, side.Buy?), o) ==
            Ahead(nodes, queues, side.Buy?, t) + (OrdersAt(nodes, queues[t]) + [o])
            + Behind(nodes, queues, side.Buy?, t)
  {
    hide Linked, SideOf, Ahead, Behind;
    var d := side.Buy?;
    var a, m, z := Ahead(nodes, queues, d, t), OrdersAt(nodes, queues[t]), Behind(nodes, queues, d, t);
    var q := SideOf(nodes, queues, d);
    SideSplit(nodes, queues, d, t);
    var k := |a| + |m|;
    assert q[..k] == a + m && q[k..] == z;
    forall i | 0 <= i < k ensures !BetterPrice(side, o.price, q[i].price) {
      if i < |a| {
        assert q[i] == a[i];
        var u, j := AheadMember(nodes, queues, d, t, a[i]);
        assert Seated(side, inst, nodes, tickOf, idx, u, queues[u][j]);
        if d { TickPriceOrder(inst, t, u); } else { TickPriceOrder(inst, u, t); }
      } else {
        assert q[i] == m[i - |a|];
        assert Seated(side, inst, nodes, tickOf, idx, t, queues[t][i - |a|]);
      }
    }
    if k < |q| {
      assert q[k] == z[0];
      var u, j := BehindMember(nodes, queues, d, t, z[0]);
      assert Seated(side, inst, nodes, tickOf, idx, u, queues[u][j]);
      if d { TickPriceOrder(inst, u, t); } else { TickPriceOrder(inst, t, u); }
    }
    PlaceAt(q, o, k);
  }

  // ----- both sides together

  datatype Shape = Shape(
    inst: Instrument,
    nodes: seq<OrderNode>,
    bidLevels: seq<PriceLevel>,
    bidQueues: seq<seq<nat>>,
    askLevels: seq<PriceLevel>,
    askQueues: seq<seq<nat>>,
    tickOf: map<nat, nat>,
    idx: map<nat, nat>)
  {
    function Levels(side: Side): seq<PriceLevel> { if side.Buy? then bidLevels else askLevels }

    function Queues(side: Side): seq<seq<nat>> { if side.Buy? then bidQueues else askQueues }

    function With(side: Side, levels: seq<PriceLevel>, queues: seq<seq<nat>>): Shape {
      if side.Buy? then this.(bidLevels := levels, bidQueues := queues)
      else this.(askLevels := levels, askQueues := queues)
    }

    ghost predicate Fits(side: Side)
      requires inst.WellFormed()
    {
      SideFits(side, inst, nodes, Levels(side), Queues(side), tickOf, idx)
    }

    /** Every live handle stands in the queue of its side and tick. */
    ghost predicate Queued() {
      forall h :: h in tickOf ==>
        && h < |nodes| && tickOf[h] < |Queues(nodes[h].order.side)|
        && h in Queues(nodes[h].order.side)[tickOf[h]]
    }

    /** Every indexed identifier leads to the live order that bears it. */
    ghost predicate Indexed() {
      forall id :: id in idx ==> idx[id] in tickOf && idx[id] < |nodes| && nodes[idx[id]].order.id == id
    }

    /** Index entries, live nodes and queue members are in one-to-one correspondence. */
    ghost predicate Ok() {
      && inst.WellFormed() && |nodes| <= NULL_HANDLE
      && Fits(Buy) && Fits(Sell) && Queued() && Indexed()
    }

    /** The side in matching order that the queues spell out. */
    ghost function Orders(side: Side): seq<Order>
      requires AllInSlab(nodes, Queues(side))
    {
      SideOf(nodes, Queues(side), side.Buy?)
    }
  }

  lemma ShapeSlab(s: Shape, side: Side)
    requires s.Ok()
    ensures s.inst.WellFormed() && s.Fits(side) && AllInSlab(s.nodes, s.Queues(side))
            && |s.Levels(side)| == |s.Queues(side)| == s.inst.TickCount()
  {
    FitsInSlab(side, s.inst, s.nodes, s.Levels(side), s.Queues(side), s.tickOf, s.idx);
  }

  /** A live handle is seated in its own queue. */
  lemma LiveIsSeated(s: Shape, h: nat) returns (k: nat)
    requires s.Ok() && h in s.tickOf
    ensures h < |s.nodes|
    ensures var side, t := s.nodes[h].order.side, s.tickOf[h];
            && t < |s.Queues(side)| && k < |s.Queues(side)[t]| && s.Queues(side)[t][k] == h
            && Seated(side, s.inst, s.nodes, s.tickOf, s.idx, t, h)
  {
    hide Linked;
    var side, t := s.nodes[h].order.side, s.tickOf[h];
    ShapeSlab(s, side);
    k :| 0 <= k < |s.Queues(side)[t]| && s.Queues(side)[t][k] == h;
    assert Seated(side, s.inst, s.nodes, s.tickOf, s.idx, t, s.Queues(side)[t][k]);
  }

  /** Nodes that hold no live order may change freely. */
  lemma ShapeFrame(s: Shape, nodes': seq<OrderNode>)
    requires s.Ok() && |nodes'| <= NULL_HANDLE
    requires forall h :: h in s.tickOf ==> h < |nodes'| && h < |s.nodes| && nodes'[h] == s.nodes[h]
    ensures s.(nodes := nodes').Ok()
    ensures forall side ::
              && AllInSlab(s.nodes, s.Queues(side)) && AllInSlab(nodes', s.Queues(side))
              && s.(nodes := nodes').Orders(side) == s.Orders(side)
  {
    hide SideFits, SideOf, AllInSlab, Shape.Queued, Shape.Indexed;
    forall side
      ensures s.(nodes := nodes').Fits(side) && AllInSlab(s.nodes, s.Queues(side)) && AllInSlab(nodes', s.Queues(side))
                        && s.(nodes := nodes').Orders(side) == s.Orders(side)
    {
      ShapeSlab(s, side);
      SideFrame(side, s.inst, s.nodes, s.Levels(side), s.Queues(side), s.tickOf, s.idx, nodes', s.tickOf, s.idx);
    }
    assert s.(nodes := nodes').Fits(Buy) && s.(nodes := nodes').Fits(Sell);
    FrameQueued(s, nodes');
  }

  lemma FrameQueued(s: Shape, nodes': seq<OrderNode>)
    requires s.Queued() && s.Indexed()
    requires forall h :: h in s.tickOf ==> h < |nodes'| && h < |s.nodes| && nodes'[h] == s.nodes[h]
    ensures s.(nodes := nodes').Queued() && s.(nodes := nodes').Indexed()
  {
  }

  /** The shape after the order `k` of tick `t` has become `o`. */
  ghost function Changed(s: Shape, side: Side, t: nat, k: nat, o: Order, total: nat): Shape
    requires t < |s.Queues(side)| == |s.Levels(side)| && k < |s.Queues(side)[t]| && s.Queues(side)[t][k] < |s.nodes|
  {
    var h := s.Queues(side)[t][k];
    s.(nodes := s.nodes[h := s.nodes[h].(order := o)])
     .With(side, s.Levels(side)[t := s.Levels(side)[t].(total := total)], s.Queues(side))
  }

  /** `s'` differs from `s` on one side only, where it has these levels and queues. */
  ghost predicate Edited(s: Shape, s': Shape, side: Side, levels: seq<PriceLevel>, queues: seq<seq<nat>>) {
    && s'.inst == s.inst && s'.Levels(side) == levels && s'.Queues(side) == queues
    && s'.Levels(side.Opposite()) == s.Levels(side.Opposite())
    && s'.Queues(side.Opposite()) == s.Queues(side.Opposite())
  }

  lemma ShapeChange(s: Shape, side: Side, t: nat, k: nat, o: Order, total: nat)
    requires s.Ok() && t < |s.Queues(side)| == |s.Levels(side)| && k < |s.Queues(side)[t]|
             && s.Queues(side)[t][k] < |s.nodes|
    requires var was := s.nodes[s.Queues(side)[t][k]].order;
             o.id == was.id && o.side == was.side && o.price == was.price
             && total + was.remaining == s.Levels(side)[t].total + o.remaining
    ensures var s' := Changed(s, side, t, k, o, total);
            && s'.Ok()
            && AllInSlab(s.nodes, s.Queues(side)) && AllInSlab(s'.nodes, s'.Queues(side))
            && AllInSlab(s.nodes, s.Queues(side.Opposite())) && AllInSlab(s'.nodes, s'.Queues(side.Opposite()))
            && Position(s.nodes, s.Queues(side), side.Buy?, t, k) < |s.Orders(side)|
            && s'.Orders(side) == s.Orders(side)[Position(s.nodes, s.Queues(side), side.Buy?, t, k) := o]
            && s'.Orders(side.Opposite()) == s.Orders(side.Opposite())
  {
    hide SideFits, SideOf, AllInSlab, Ahead, Shape.Queued, Shape.Indexed;
    var h, s' := s.Queues(side)[t][k], Changed(s, side, t, k, o, total);
    ShapeSlab(s, side);
    ShapeSlab(s, side.Opposite());
    QueuedSeat(s, side, t, k);
    ChangeFits(side, s.inst, s.nodes, s.Levels(side), s.Queues(side), s.tickOf, s.idx, t, k, o, total);
    SideFrame(side.Opposite(), s.inst, s.nodes, s.Levels(side.Opposite()), s.Queues(side.Opposite()), s.tickOf, s.idx,
              s'.nodes, s.tickOf, s.idx);
    assert s'.Fits(side) && s'.Fits(side.Opposite());
    BothFit(s', side);
    ChangeQueued(s, side, t, k, o, total);
    ChangeIndexed(s, side, t, k, o, total);
  }

  lemma ChangeQueued(s: Shape, side: Side, t: nat, k: nat, o: Order, total: nat)
    requires s.Queued()
    requires t < |s.Queues(side)| == |s.Levels(side)| && k < |s.Queues(side)[t]| && s.Queues(side)[t][k] < |s.nodes|
    requires o.side == s.nodes[s.Queues(side)[t][k]].order.side
    ensures Changed(s, side, t, k, o, total).Queued()
  {
    var s' := Changed(s, side, t, k, o, total);
    forall h | h in s'.tickOf
      ensures h < |s'.nodes| && s'.tickOf[h] < |s'.Queues(s'.nodes[h].order.side)|
              && h in s'.Queues(s'.nodes[h].order.side)[s'.tickOf[h]]
    {
      assert s'.nodes[h].order.side == s.nodes[h].order.side && forall d :: s'.Queues(d) == s.Queues(d);
    }
  }

  lemma ChangeIndexed(s: Shape, side: Side, t: nat, k: nat, o: Order, total: nat)
    requires s.Indexed()
    requires t < |s.Queues(side)| == |s.Levels(side)| && k < |s.Queues(side)[t]| && s.Queues(side)[t][k] < |s.nodes|
    requires o.id == s.nodes[s.Queues(side)[t][k]].order.id
    ensures Changed(s, side, t, k, o, total).Indexed()
  {
  }

  lemma BothFit(s: Shape, side: Side)
    requires s.inst.WellFormed() && s.Fits(side) && s.Fits(side.Opposite())
    ensures s.Fits(Buy) && s.Fits(Sell)
  {
    hide SideFits;
  }

  lemma QueuedSeat(s: Shape, side: Side, t: nat, k: nat)
    requires s.Ok() && t < |s.Queues(side)| && k < |s.Queues(side)[t]|
    ensures var h := s.Queues(side)[t][k];
            && h < |s.nodes| && h in s.tickOf && s.tickOf[h] == t
            && s.nodes[h].order.side == side && s.nodes[h].order.price == TickPrice(s.inst, t)
            && s.nodes[h].order.id in s.idx && s.idx[s.nodes[h].order.id] == h
  {
    hide Linked;
    ShapeSlab(s, side);
    assert Seated(side, s.inst, s.nodes, s.tickOf, s.idx, t, s.Queues(side)[t][k]);
  }

  /** The shape after the order `k` of tick `t` is gone. */
  ghost function Dropped(s: Shape, side: Side, t: nat, k: nat, nodes': seq<OrderNode>, level': PriceLevel): Shape
    requires t < |s.Queues(side)| == |s.Levels(side)| && k < |s.Queues(side)[t]| && s.Queues(side)[t][k] < |s.nodes|
  {
    var q := s.Queues(side)[t];
    s.(nodes := nodes', tickOf := s.tickOf - {q[k]}, idx := s.idx - {s.nodes[q[k]].order.id})
     .With(side, s.Levels(side)[t := level'], s.Queues(side)[t := q[..k] + q[k + 1..]])
  }

  lemma ShapeDrop(s: Shape, side: Side, t: nat, k: nat, nodes': seq<OrderNode>, level': PriceLevel)
    requires s.Ok() && t < |s.Queues(side)| == |s.Levels(side)| && k < |s.Queues(side)[t]|
             && s.Queues(side)[t][k] < |s.nodes|
    requires var q := s.Queues(side)[t]; OnlyLinksOf(s.nodes, nodes', q) && Linked(nodes', level', q[..k] + q[k + 1..])
    ensures var s' := Dropped(s, side, t, k, nodes', level');
            && s'.Ok()
            && AllInSlab(s.nodes, s.Queues(side)) && AllInSlab(s'.nodes, s'.Queues(side))
            && AllInSlab(s.nodes, s.Queues(side.Opposite())) && AllInSlab(s'.nodes, s'.Queues(side.Opposite()))
            && (var p, q := Position(s.nodes, s.Queues(side), side.Buy?, t, k), s.Orders(side);
                p < |q| && q[p] == s.nodes[s.Queues(side)[t][k]].order && s'.Orders(side) == q[..p] + q[p + 1..])
            && s'.Orders(side.Opposite()) == s.Orders(side.Opposite())
  {
    hide SideFits, SideOf, AllInSlab, Ahead, Behind, Linked, Shape.Queued, Shape.Indexed;
    var q, s' := s.Queues(side)[t], Dropped(s, side, t, k, nodes', level');
    var h := q[k];
    ShapeSlab(s, side);
    ShapeSlab(s, side.Opposite());
    QueuedSeat(s, side, t, k);
    DropFits(side, s.inst, s.nodes, s.Levels(side), s.Queues(side), s.tickOf, s.idx, t, k, nodes', level');
    forall g | g in s.tickOf && g < |s.nodes| && s.nodes[g].order.side == side.Opposite()
      ensures nodes'[g] == s.nodes[g] && g != h && s.nodes[g].order.id != s.nodes[h].order.id
    {
      OtherSide(s, side, t, g);
      var _ := LiveIsSeated(s, g);
    }
    SideFrame(side.Opposite(), s.inst, s.nodes, s.Levels(side.Opposite()), s.Queues(side.Opposite()), s.tickOf, s.idx,
              nodes', s'.tickOf, s'.idx);
    assert s'.Fits(side) && s'.Fits(side.Opposite());
    BothFit(s', side);
    DropQueued(s, side, t, k, nodes', level');
    DropIndexed(s, side, t, k, nodes', level');
  }

  lemma OtherSide(s: Shape, side: Side, t: nat, g: nat)
    requires s.Ok() && t < |s.Queues(side)| && g < |s.nodes| && s.nodes[g].order.side != side
    ensures g !in s.Queues(side)[t]
  {
    hide SideFits;
    forall i | 0 <= i < |s.Queues(side)[t]| ensures s.Queues(side)[t][i] != g {
      QueuedSeat(s, side, t, i);
    }
  }

  lemma DropQueued(s: Shape, side: Side, t: nat, k: nat, nodes': seq<OrderNode>, level': PriceLevel)
    requires s.Ok() && t < |s.Queues(side)| == |s.Levels(side)| && k < |s.Queues(side)[t]|
             && s.Queues(side)[t][k] < |s.nodes|
    requires OnlyLinksOf(s.nodes, nodes', s.Queues(side)[t])
    ensures Dropped(s, side, t, k, nodes', level').Queued()
  {
    hide SideFits, Shape.Indexed, Shape.Ok, Dropped;
    var s' := Dropped(s, side, t, k, nodes', level');
    forall g | g in s'.tickOf
      ensures g < |s'.nodes| && s'.tickOf[g] < |s'.Queues(s'.nodes[g].order.side)|
              && g in s'.Queues(s'.nodes[g].order.side)[s'.tickOf[g]]
    {
      StaysQueued(s, side, t, k, nodes', level', g);
    }
  }

  lemma StaysQueued(s: Shape, side: Side, t: nat, k: nat, nodes': seq<OrderNode>, level': PriceLevel, g: nat)
    requires s.Ok() && t < |s.Queues(side)| == |s.Levels(side)| && k < |s.Queues(side)[t]|
             && s.Queues(side)[t][k] < |s.nodes|
    requires OnlyLinksOf(s.nodes, nodes', s.Queues(side)[t]) && g in Dropped(s, side, t, k, nodes', level').tickOf
    ensures var s' := Dropped(s, side, t, k, nodes', level');
            && g < |s'.nodes| && s'.tickOf[g] < |s'.Queues(s'.nodes[g].order.side)|
            && g in s'.Queues(s'.nodes[g].order.side)[s'.tickOf[g]]
  {
    hide SideFits, Shape.Indexed, Shape.Queued;
    var q := s.Queues(side)[t];
    QueuedSeat(s, side, t, k);
    var i := LiveIsSeated(s, g);
    if s.nodes[g].order.side == side && s.tickOf[g] == t {
      assert i != k;
      assert (q[..k] + q[k + 1..])[if i < k then i else i - 1] == g;
    }
  }

  lemma DropIndexed(s: Shape, side: Side, t: nat, k: nat, nodes': seq<OrderNode>, level': PriceLevel)
    requires s.Ok() && t < |s.Queues(side)| == |s.Levels(side)| && k < |s.Queues(side)[t]|
             && s.Queues(side)[t][k] < |s.nodes|
    requires OnlyLinksOf(s.nodes, nodes', s.Queues(side)[t])
    ensures Dropped(s, side, t, k, nodes', level').Indexed()
  {
    hide SideFits, Shape.Queued;
    var s' := Dropped(s, side, t, k, nodes', level');
    QueuedSeat(s, side, t, k);
    forall id | id in s'.idx
      ensures s'.idx[id] in s'.tickOf && s'.idx[id] < |s'.nodes|
              && s'.nodes[s'.idx[id]].order.id == id
    {
    }
  }

  /** The shape after a new handle `h` has joined the back of tick `t`. */
  ghost function Joined(s: Shape, side: Side, t: nat, h: nat, nodes': seq<OrderNode>, level': PriceLevel): Shape
    requires t < |s.Queues(side)| == |s.Levels(side)| && h < |s.nodes|
  {
    s.(nodes := nodes', tickOf := s.tickOf[h := t], idx := s.idx[s.nodes[h].order.id := h])
     .With(side, s.Levels(side)[t := level'], s.Queues(side)[t := s.Queues(side)[t] + [h]])
  }

  lemma ShapeJoin(s: Shape, side: Side, t: nat, h: nat, nodes': seq<OrderNode>, level': PriceLevel)
    requires s.Ok() && t < |s.Queues(side)| == |s.Levels(side)| && h < |s.nodes| && h !in s.tickOf
    requires s.nodes[h].order.side == side && s.nodes[h].order.price == TickPrice(s.inst, t)
             && s.nodes[h].order.id !in s.idx
    requires OnlyLinksOf(s.nodes, nodes', s.Queues(side)[t] + [h]) && Linked(nodes', level', s.Queues(side)[t] + [h])
    ensures var s' := Joined(s, side, t, h, nodes', level');
            && s'.Ok()
            && AllInSlab(s.nodes, s.Queues(side)) && AllInSlab(s'.nodes, s'.Queues(side))
            && AllInSlab(s.nodes, s.Queues(side.Opposite())) && AllInSlab(s'.nodes, s'.Queues(side.Opposite()))
            && s'.Orders(side) == Place(s.Orders(side), s.nodes[h].order)
            && s'.Orders(side.Opposite()) == s.Orders(side.Opposite())
  {
    hide SideFits, SideOf, AllInSlab, Ahead, Behind, Linked, Place, Shape.Queued, Shape.Indexed;
    var opp, o, s' := side.Opposite(), s.nodes[h].order, Joined(s, side, t, h, nodes', level');
    var idx' := s.idx[o.id := h];
    ShapeSlab(s, side);
    ShapeSlab(s, opp);
    NewIdentifier(s, o.id);
    SideFrame(side, s.inst, s.nodes, s.Levels(side), s.Queues(side), s.tickOf, s.idx, s.nodes, s.tickOf, idx');
    PushIsPlace(side, s.inst, s.nodes, s.Levels(side), s.Queues(side), s.tickOf, s.idx, t, o);
    PushFits(side, s.inst, s.nodes, s.Levels(side), s.Queues(side), s.tickOf, idx', t, h, nodes', level');
    forall g | g in s.tickOf && g < |s.nodes| && s.nodes[g].order.side == opp ensures nodes'[g] == s.nodes[g] {
      OtherSide(s, side, t, g);
    }
    SideFrame(opp, s.inst, s.nodes, s.Levels(opp), s.Queues(opp), s.tickOf, s.idx, nodes', s'.tickOf, s'.idx);
    assert s'.Fits(side) && s'.Fits(opp);
    BothFit(s', side);
    JoinQueued(s, side, t, h, nodes', level');
    JoinIndexed(s, side, t, h, nodes', level');
  }

  lemma NewIdentifier(s: Shape, id: nat)
    requires s.Ok() && id !in s.idx
    ensures forall g :: g in s.tickOf ==> g < |s.nodes| && s.nodes[g].order.id != id
  {
    hide SideFits;
    forall g | g in s.tickOf ensures g < |s.nodes| && s.nodes[g].order.id != id {
      var _ := LiveIsSeated(s, g);
    }
  }

  lemma JoinsQueued(s: Shape, side: Side, t: nat, h: nat, nodes': seq<OrderNode>, level': PriceLevel, g: nat)
    requires s.Ok() && t < |s.Queues(side)| == |s.Levels(side)| && h < |s.nodes| && h !in s.tickOf
    requires s.nodes[h].order.side == side && OnlyLinksOf(s.nodes, nodes', s.Queues(side)[t] + [h])
    requires g in Joined(s, side, t, h, nodes', level').tickOf
    ensures var s' := Joined(s, side, t, h, nodes', level');
            && g < |s'.nodes| && s'.tickOf[g] < |s'.Queues(s'.nodes[g].order.side)|
            && g in s'.Queues(s'.nodes[g].order.side)[s'.tickOf[g]]
  {
    hide SideFits, Shape.Indexed, Shape.Queued;
    if g != h {
      var _ := LiveIsSeated(s, g);
    }
  }

  lemma JoinQueued(s: Shape, side: Side, t: nat, h: nat, nodes': seq<OrderNode>, level': PriceLevel)
    requires s.Ok() && t < |s.Queues(side)| == |s.Levels(side)| && h < |s.nodes| && h !in s.tickOf
    requires s.nodes[h].order.side == side && OnlyLinksOf(s.nodes, nodes', s.Queues(side)[t] + [h])
    ensures Joined(s, side, t, h, nodes', level').Queued()
  {
    hide SideFits, Shape.Indexed, Shape.Ok, OnlyLinksOf, Joined, Shape.Queues, Shape.Levels;
    var s' := Joined(s, side, t, h, nodes', level');
    forall g | g in s'.tickOf
      ensures g < |s'.nodes| && s'.tickOf[g] < |s'.Queues(s'.nodes[g].order.side)|
              && g in s'.Queues(s'.nodes[g].order.side)[s'.tickOf[g]]
    {
      JoinsQueued(s, side, t, h, nodes', level', g);
    }
  }

  lemma JoinIndexed(s: Shape, side: Side, t: nat, h: nat, nodes': seq<OrderNode>, level': PriceLevel)
    requires s.Ok() && t < |s.Queues(side)| == |s.Levels(side)| && h < |s.nodes| && h !in s.tickOf
    requires s.nodes[h].order.side == side && OnlyLinksOf(s.nodes, nodes', s.Queues(side)[t] + [h])
    ensures Joined(s, side, t, h, nodes', level').Indexed()
  {
    hide SideFits, Shape.Queued;
    var s' := Joined(s, side, t, h, nodes', level');
    forall id | id in s'.idx
      ensures s'.idx[id] in s'.tickOf && s'.idx[id] < |s'.nodes|
              && s'.nodes[s'.idx[id]].order.id == id
    {
    }
  }

  // ----- the structures and the book they spell out

  ghost predicate Spells(s: Shape, b: Book) {
    && s.Ok() && b.instrument == s.inst
    && (forall side :: AllInSlab(s.nodes, s.Queues(side)) && s.Orders(side) == b.Queue(side))
  }

  /** A seat: tick `t`, place `k`, held by handle `h`. */
  ghost predicate SeatAt(s: Shape, side: Side, t: nat, k: nat, h: nat) {
    && t < |s.Queues(side)| == |s.Levels(side)|
    && k < |s.Queues(side)[t]| && s.Queues(side)[t][k] == h && h < |s.nodes|
  }

  /** Where that seat stands on its side of the book. */
  ghost function Standing(s: Shape, side: Side, t: nat, k: nat): nat {
    if AllInSlab(s.nodes, s.Queues(side)) && t < |s.Queues(side)|
    then Position(s.nodes, s.Queues(side), side.Buy?, t, k) else 0
  }

  lemma SpellsBySide(s: Shape, b: Book, side: Side)
    requires s.Ok() && b.instrument == s.inst
    requires AllInSlab(s.nodes, s.Queues(side)) && s.Orders(side) == b.Queue(side)
    requires AllInSlab(s.nodes, s.Queues(side.Opposite())) && s.Orders(side.Opposite()) == b.Queue(side.Opposite())
    ensures Spells(s, b)
  {
    hide Shape.Ok, AllInSlab, SideOf;
    forall any ensures AllInSlab(s.nodes, s.Queues(any)) && s.Orders(any) == b.Queue(any) {
      assert any == side || any == side.Opposite();
    }
  }

  lemma SpellsSeat(s: Shape, b: Book, side: Side, t: nat, k: nat, h: nat)
    requires Spells(s, b) && SeatAt(s, side, t, k, h)
    ensures Standing(s, side, t, k) < |b.Queue(side)| && b.Queue(side)[Standing(s, side, t, k)] == s.nodes[h].order
    ensures h in s.tickOf && s.tickOf[h] == t
    ensures s.nodes[h].order.side == side && s.nodes[h].order.price == TickPrice(s.inst, t)
    ensures s.nodes[h].order.remaining <= s.Levels(side)[t].total
    ensures s.nodes[h].order.id in s.idx && s.idx[s.nodes[h].order.id] == h
  {
    hide SideFits, SideOf, AllInSlab, Ahead;
    QueuedSeat(s, side, t, k);
    PositionAt(s.nodes, s.Queues(side), side.Buy?, t, k);
    SeatTotal(s, side, t, k);
  }

  /** A level's total is at least the remainder of any order queued there. */
  lemma SeatTotal(s: Shape, side: Side, t: nat, k: nat)
    requires s.Ok() && t < |s.Queues(side)| == |s.Levels(side)| && k < |s.Queues(side)[t]|
             && s.Queues(side)[t][k] < |s.nodes|
    ensures Linked(s.nodes, s.Levels(side)[t], s.Queues(side)[t])
    ensures s.nodes[s.Queues(side)[t][k]].order.remaining <= s.Levels(side)[t].total
  {
    ShapeSlab(s, side);
    UnlinkNeighbours(s.nodes, s.Levels(side)[t], s.Queues(side)[t], k);
  }

  lemma SpellsChange(s: Shape, b: Book, side: Side, t: nat, k: nat, h: nat, o: Order, total: nat)
    requires Spells(s, b) && SeatAt(s, side, t, k, h)
    requires var was := s.nodes[h].order;
             o.id == was.id && o.side == was.side && o.price == was.price
             && total + was.remaining == s.Levels(side)[t].total + o.remaining
    ensures var p := Standing(s, side, t, k);
            p < |b.Queue(side)| && Spells(Changed(s, side, t, k, o, total), b.WithQueue(side, b.Queue(side)[p := o]))
    ensures var s' := Changed(s, side, t, k, o, total);
            && Edited(s, s', side, s.Levels(side)[t := s.Levels(side)[t].(total := total)], s.Queues(side))
            && s'.nodes == s.nodes[h := s.nodes[h].(order := o)] && s'.tickOf == s.tickOf && s'.idx == s.idx
  {
    hide Shape.Ok, AllInSlab, SideOf, Position;
    SpellsSeat(s, b, side, t, k, h);
    ShapeChange(s, side, t, k, o, total);
    var p := Standing(s, side, t, k);
    SpellsBySide(Changed(s, side, t, k, o, total), b.WithQueue(side, b.Queue(side)[p := o]), side);
  }

  lemma SpellsDrop(s: Shape, b: Book, side: Side, t: nat, k: nat, h: nat, nodes': seq<OrderNode>, level': PriceLevel)
    requires Spells(s, b) && SeatAt(s, side, t, k, h)
    requires var q := s.Queues(side)[t]; OnlyLinksOf(s.nodes, nodes', q) && Linked(nodes', level', q[..k] + q[k + 1..])
    ensures var p, q := Standing(s, side, t, k), b.Queue(side);
            p < |q| && Spells(Dropped(s, side, t, k, nodes', level'), b.WithQueue(side, q[..p] + q[p + 1..]))
    ensures var s', q := Dropped(s, side, t, k, nodes', level'), s.Queues(side)[t];
            && Edited(s, s', side, s.Levels(side)[t := level'], s.Queues(side)[t := q[..k] + q[k + 1..]])
            && s'.nodes == nodes' && s'.tickOf == s.tickOf - {h} && s'.idx == s.idx - {s.nodes[h].order.id}
  {
    hide Shape.Ok, AllInSlab, SideOf, Position, Linked;
    SpellsSeat(s, b, side, t, k, h);
    ShapeDrop(s, side, t, k, nodes', level');
    var p, q := Standing(s, side, t, k), b.Queue(side);
    SpellsBySide(Dropped(s, side, t, k, nodes', level'), b.WithQueue(side, q[..p] + q[p + 1..]), side);
  }

  lemma SpellsJoin(s: Shape, b: Book, side: Side, t: nat, h: nat, nodes': seq<OrderNode>, level': PriceLevel)
    requires Spells(s, b) && t < |s.Queues(side)| == |s.Levels(side)| && h < |s.nodes| && h !in s.tickOf
    requires s.nodes[h].order.side == side && s.nodes[h].order.price == TickPrice(s.inst, t)
             && s.nodes[h].order.id !in s.idx
    requires OnlyLinksOf(s.nodes, nodes', s.Queues(side)[t] + [h]) && Linked(nodes', level', s.Queues(side)[t] + [h])
    ensures Spells(Joined(s, side, t, h, nodes', level'), Rested(b, s.nodes[h].order))
    ensures var s' := Joined(s, side, t, h, nodes', level');
            && Edited(s, s', side, s.Levels(side)[t := level'], s.Queues(side)[t := s.Queues(side)[t] + [h]])
            && s'.nodes == nodes' && s'.tickOf == s.tickOf[h := t] && s'.idx == s.idx[s.nodes[h].order.id := h]
  {
    hide Shape.Ok, AllInSlab, SideOf, Linked, Place;
    ShapeJoin(s, side, t, h, nodes', level');
    SpellsBySide(Joined(s, side, t, h, nodes', level'), Rested(b, s.nodes[h].order), side);
  }

  lemma SpellsFrame(s: Shape, b: Book, nodes': seq<OrderNode>)
    requires Spells(s, b) && |nodes'| <= NULL_HANDLE
    requires forall h :: h in s.tickOf && h < |s.nodes| ==> h < |nodes'| && nodes'[h] == s.nodes[h]
    ensures Spells(s.(nodes := nodes'), b)
    ensures forall side ::
              s.(nodes := nodes').Levels(side) == s.Levels(side) && s.(nodes := nodes').Queues(side) == s.Queues(side)
  {
    hide SideFits, AllInSlab, SideOf;
    ShapeFrame(s, nodes');
  }

  lemma SpellsLevels(s: Shape, b: Book, side: Side)
    requires Spells(s, b)
    ensures s.inst.WellFormed() && |s.nodes| <= NULL_HANDLE && |s.Levels(side)| == |s.Queues(side)| ==
            s.inst.TickCount()
    ensures forall t :: 0 <= t < |s.Queues(side)| ==> Linked(s.nodes, s.Levels(side)[t], s.Queues(side)[t])
    ensures forall t, h :: 0 <= t < |s.Queues(side)| && h in s.Queues(side)[t] ==> h in s.tickOf
  {
    hide Linked;
    ShapeSlab(s, side);
    forall t, h | 0 <= t < |s.Queues(side)| && h in s.Queues(side)[t] ensures h in s.tickOf {
      var k :| 0 <= k < |s.Queues(side)[t]| && s.Queues(side)[t][k] == h;
      QueuedSeat(s, side, t, k);
    }
  }

  /** Nothing is queued ahead of tick `t`. */
  ghost predicate Leads(queues: seq<seq<nat>>, descending: bool, t: nat) {
    forall u :: 0 <= u < |queues| && (if descending then u > t else u < t) ==> queues[u] == []
  }

  /** The head of the leading tick is the front of the side. */
  lemma LeadingFront(s: Shape, b: Book, side: Side, t: nat)
    requires Spells(s, b) && t < |s.Queues(side)| && s.Queues(side)[t] != [] && Leads(s.Queues(side), side.Buy?, t)
    ensures var h := s.Queues(side)[t][0];
            && SeatAt(s, side, t, 0, h) && Standing(s, side, t, 0) == 0
            && b.Queue(side) != [] && b.Queue(side)[0] == s.nodes[h].order
            && s.nodes[h].order.price == TickPrice(s.inst, t)
            && s.Levels(side)[t].head == h
  {
    hide SideFits, SideOf, AllInSlab, Ahead;
    ShapeSlab(s, side);
    NothingAhead(s.nodes, s.Queues(side), side.Buy?, t);
    QueuedSeat(s, side, t, 0);
    SpellsSeat(s, b, side, t, 0, s.Queues(side)[t][0]);
    SeatTotal(s, side, t, 0);
  }

  lemma NothingQueued(s: Shape, b: Book, side: Side)
    requires Spells(s, b) && forall t :: 0 <= t < |s.Queues(side)| ==> s.Queues(side)[t] == []
    ensures b.Queue(side) == []
  {
    hide SideFits;
    FlattenEmpty(Ranked(s.nodes, s.Queues(side), side.Buy?));
  }

  lemma SpellsTradeId(s: Shape, b: Book, n: nat)
    requires Spells(s, b)
    ensures Spells(s, b.(nextTradeId := n))
  {
    hide Shape.Ok, AllInSlab, SideOf;
    forall side ensures b.(nextTradeId := n).Queue(side) == b.Queue(side) {}
  }

  // ----- walking a side tick by tick

  /** The stretch of a side from tick `t` on, with the first `i` orders of that tick left out. */
  ghost function From(s: Shape, side: Side, t: int, i: nat): seq<Order>
  {
    if 0 <= t < |s.Queues(side)| && i <= |s.Queues(side)[t]| && AllInSlab(s.nodes, s.Queues(side))
    then OrdersAt(s.nodes, s.Queues(side)[t])[i..] + Behind(s.nodes, s.Queues(side), side.Buy?, t) else []
  }

  lemma FromFirst(s: Shape, b: Book, side: Side, t: nat)
    requires Spells(s, b) && t < |s.Queues(side)| && Leads(s.Queues(side), side.Buy?, t)
    ensures b.Queue(side) == From(s, side, t, 0)
  {
    hide SideFits, AllInSlab, SideOf, Ahead, Behind;
    ShapeSlab(s, side);
    NothingAhead(s.nodes, s.Queues(side), side.Buy?, t);
    SideSplit(s.nodes, s.Queues(side), side.Buy?, t);
    assert OrdersAt(s.nodes, s.Queues(side)[t])[0..] == OrdersAt(s.nodes, s.Queues(side)[t]);
  }

  /** No queue between tick `t` and tick `n` in traversal order, or none at all after `t`. */
  ghost predicate Adjacent(queues: seq<seq<nat>>, descending: bool, t: nat, n: int) {
    && n < |queues| && (0 <= n ==> if descending then n < t else t < n)
    && forall u ::
         0 <= u < |queues| && (if descending then u < t else t < u) && (0 <= n ==> if descending then n < u else u < n)
         ==> queues[u] == []
  }

  /** When tick `t` is used up, the walk goes on at the next tick with a queue. */
  lemma FromNext(s: Shape, side: Side, t: nat, n: int)
    requires s.Ok() && t < |s.Queues(side)| && Adjacent(s.Queues(side), side.Buy?, t, n)
    ensures From(s, side, t, |s.Queues(side)[t]|) == From(s, side, n, 0)
  {
    hide Shape.Ok, AllInSlab, Behind;
    ShapeSlab(s, side);
    var os := OrdersAt(s.nodes, s.Queues(side)[t]);
    assert os[|os|..] == [];
    if 0 <= n {
      BehindNext(s.nodes, s.Queues(side), side.Buy?, t, n);
      assert OrdersAt(s.nodes, s.Queues(side)[n])[0..] == OrdersAt(s.nodes, s.Queues(side)[n]);
    } else {
      BehindNothing(s.nodes, s.Queues(side), side.Buy?, t);
    }
  }

  /** The next order of the walk, and where its links lead. */
  lemma FromHead(s: Shape, side: Side, t: nat, i: nat)
    requires s.Ok() && t < |s.Queues(side)| && i < |s.Queues(side)[t]|
    ensures var h := s.Queues(side)[t][i];
            && h < |s.nodes| && s.nodes[h].order.side == side && s.nodes[h].order.price == TickPrice(s.inst, t)
            && From(s, side, t, i) == [s.nodes[h].order] + From(s, side, t, i + 1)
            && s.nodes[h].next == At(s.Queues(side)[t], i + 1)
  {
    hide Shape.Ok, AllInSlab, Behind, Linked;
    ShapeSlab(s, side);
    QueuedSeat(s, side, t, i);
    SeatTotal(s, side, t, i);
    UnlinkNeighbours(s.nodes, s.Levels(side)[t], s.Queues(side)[t], i);
    var os := OrdersAt(s.nodes, s.Queues(side)[t]);
    assert os[i..] == [os[i]] + os[i + 1..];
  }

  lemma FromTick(s: Shape, side: Side, t: nat)
    requires s.Ok() && t < |s.Queues(side)| == |s.Levels(side)|
    ensures Linked(s.nodes, s.Levels(side)[t], s.Queues(side)[t]) && InSlab(s.nodes, s.Queues(side)[t])
    ensures From(s, side, t, 0) == OrdersAt(s.nodes, s.Queues(side)[t]) + From(s, side, t, |s.Queues(side)[t]|)
    ensures forall i :: 0 <= i < |s.Queues(side)[t]| ==>
            OrdersAt(s.nodes, s.Queues(side)[t])[i].price == TickPrice(s.inst, t)
  {
    hide Shape.Ok, AllInSlab, Behind, Linked;
    ShapeSlab(s, side);
    ShapeLinked(s, side, t);
    var os := OrdersAt(s.nodes, s.Queues(side)[t]);
    assert os[0..] == os && os[|os|..] == [];
    forall i | 0 <= i < |os| ensures os[i].price == TickPrice(s.inst, t) {
      QueuedSeat(s, side, t, i);
    }
  }

  lemma ShapeLinked(s: Shape, side: Side, t: nat)
    requires s.Ok() && t < |s.Queues(side)| == |s.Levels(side)|
    ensures Linked(s.nodes, s.Levels(side)[t], s.Queues(side)[t]) && InSlab(s.nodes, s.Queues(side)[t])
  {
    ShapeSlab(s, side);
  }
}

/** A side of the book read off its price levels: the queues of the ticks, laid
    end to end in traversal order. */
module Flattening {
  import opened Types
  import opened Slab

  function Flatten(qs: seq<seq<Order>>): seq<Order> {
    if qs == [] then [] else qs[0] + Flatten(qs[1..])
  }

  lemma FlattenFront(x: seq<Order>, rest: seq<seq<Order>>)
    ensures Flatten([]) == [] && Flatten([x] + rest) == x + Flatten(rest)
  {
    assert ([x] + rest)[1..] == rest;
  }

  lemma {:induction false} FlattenConcat(a: seq<seq<Order>>, b: seq<seq<Order>>)
    ensures Flatten(a + b) == Flatten(a) + Flatten(b)
  {
    hide Flatten;
    FlattenFront([], []);
    if a == [] {
      assert a + b == b;
    } else {
      FlattenConcat(a[1..], b);
      FlattenFront(a[0], a[1..] + b);
      FlattenFront(a[0], a[1..]);
      assert [a[0]] + (a[1..] + b) == a + b && [a[0]] + a[1..] == a;
    }
  }

  lemma FlattenSplit(qs: seq<seq<Order>>, p: nat)
    requires p < |qs|
    ensures Flatten(qs) == Flatten(qs[..p]) + qs[p] + Flatten(qs[p + 1..])
  {
    assert qs == qs[..p] + qs[p..] && qs[p..][1..] == qs[p + 1..];
    FlattenConcat(qs[..p], qs[p..]);
  }

  lemma FlattenUpdate(qs: seq<seq<Order>>, p: nat, q: seq<Order>)
    requires p < |qs|
    ensures Flatten(qs[p := q]) == Flatten(qs[..p]) + q + Flatten(qs[p + 1..])
  {
    FlattenSplit(qs[p := q], p);
    assert qs[p := q][..p] == qs[..p] && qs[p := q][p + 1..] == qs[p + 1..];
  }

  lemma {:induction false} FlattenEmpty(qs: seq<seq<Order>>)
    requires forall j :: 0 <= j < |qs| ==> qs[j] == []
    ensures Flatten(qs) == []
  {
    if qs != [] {
      FlattenEmpty(qs[1..]);
    }
  }

  lemma {:induction false} FlattenMember(qs: seq<seq<Order>>, x: Order) returns (j: nat)
    requires x in Flatten(qs)
    ensures j < |qs| && x in qs[j]
  {
    if x in qs[0] {
      j := 0;
    } else {
      assert x in Flatten(qs[1..]);
      j := FlattenMember(qs[1..], x);
      j := j + 1;
    }
  }

  // ----- ticks in traversal order

  function Rank(descending: bool, n: nat, t: nat): nat
    requires t < n
  {
    if descending then n - 1 - t else t
  }

  ghost predicate AllInSlab(nodes: seq<OrderNode>, queues: seq<seq<nat>>) {
    forall t :: 0 <= t < |queues| ==> InSlab(nodes, queues[t])
  }

  /** The orders of each tick, best tick first. */
  ghost function Ranked(nodes: seq<OrderNode>, queues: seq<seq<nat>>, descending: bool): (qs: seq<seq<Order>>)
    requires AllInSlab(nodes, queues)
    ensures |qs| == |queues|
    ensures forall p {:trigger qs[p]} :: 0 <= p < |qs| ==>
            qs[p] == OrdersAt(nodes, queues[Rank(descending, |queues|, p)])
  {
    seq(|queues|, p requires 0 <= p < |queues| => OrdersAt(nodes, queues[Rank(descending, |queues|, p)]))
  }

  ghost function SideOf(nodes: seq<OrderNode>, queues: seq<seq<nat>>, descending: bool): seq<Order>
    requires AllInSlab(nodes, queues)
  {
    Flatten(Ranked(nodes, queues, descending))
  }

  /** What stands ahead of tick `t`. */
  ghost function Ahead(nodes: seq<OrderNode>, queues: seq<seq<nat>>, descending: bool, t: nat): seq<Order>
    requires AllInSlab(nodes, queues) && t < |queues|
  {
    Flatten(Ranked(nodes, queues, descending)[..Rank(descending, |queues|, t)])
  }

  ghost function Behind(nodes: seq<OrderNode>, queues: seq<seq<nat>>, descending: bool, t: nat): seq<Order>
    requires AllInSlab(nodes, queues) && t < |queues|
  {
    Flatten(Ranked(nodes, queues, descending)[Rank(descending, |queues|, t) + 1..])
  }

  lemma SideSplit(nodes: seq<OrderNode>, queues: seq<seq<nat>>, descending: bool, t: nat)
    requires AllInSlab(nodes, queues) && t < |queues|
    ensures SideOf(nodes, queues, descending) ==
            Ahead(nodes, queues, descending, t) + OrdersAt(nodes, queues[t]) + Behind(nodes, queues, descending, t)
  {
    FlattenSplit(Ranked(nodes, queues, descending), Rank(descending, |queues|, t));
  }

  /** When only tick `t` changes, only its stretch of the side does. */
  lemma SideUpdate(nodes: seq<OrderNode>, queues: seq<seq<nat>>, nodes': seq<OrderNode>, queues': seq<seq<nat>>,
                   descending: bool, t: nat)
    requires AllInSlab(nodes, queues) && AllInSlab(nodes', queues') && t < |queues| == |queues'|
    requires forall u :: 0 <= u < |queues| && u != t ==> OrdersAt(nodes', queues'[u]) == OrdersAt(nodes, queues[u])
    ensures SideOf(nodes', queues', descending) ==
            Ahead(nodes, queues, descending, t) + OrdersAt(nodes', queues'[t]) + Behind(nodes, queues, descending, t)
  {
    var p := Rank(descending, |queues|, t);
    var qs, qs' := Ranked(nodes, queues, descending), Ranked(nodes', queues', descending);
    assert qs' == qs[p := OrdersAt(nodes', queues'[t])];
    FlattenUpdate(qs, p, OrdersAt(nodes', queues'[t]));
  }

  lemma SideSame(nodes: seq<OrderNode>, queues: seq<seq<nat>>, nodes': seq<OrderNode>, descending: bool)
    requires AllInSlab(nodes, queues) && AllInSlab(nodes', queues)
    requires forall u :: 0 <= u < |queues| ==> OrdersAt(nodes', queues[u]) == OrdersAt(nodes, queues[u])
    ensures SideOf(nodes', queues, descending) == SideOf(nodes, queues, descending)
  {
    assert Ranked(nodes', queues, descending) == Ranked(nodes, queues, descending);
  }

  /** With nothing ahead of tick `t`, the side begins with its queue. */
  lemma NothingAhead(nodes: seq<OrderNode>, queues: seq<seq<nat>>, descending: bool, t: nat)
    requires AllInSlab(nodes, queues) && t < |queues|
    requires forall u :: 0 <= u < |queues| && (if descending then u > t else u < t) ==> queues[u] == []
    ensures Ahead(nodes, queues, descending, t) == []
  {
    FlattenEmpty(Ranked(nodes, queues, descending)[..Rank(descending, |queues|, t)]);
  }

  lemma AheadMember(nodes: seq<OrderNode>, queues: seq<seq<nat>>, descending: bool, t: nat, x: Order)
    returns (u: nat, i: nat)
    requires AllInSlab(nodes, queues) && t < |queues| && x in Ahead(nodes, queues, descending, t)
    ensures u < |queues| && (if descending then u > t else u < t) && i < |queues[u]| && nodes[queues[u][i]].order == x
  {
    var qs := Ranked(nodes, queues, descending);
    var j := FlattenMember(qs[..Rank(descending, |queues|, t)], x);
    u := Rank(descending, |queues|, j);
    i :| 0 <= i < |qs[j]| && qs[j][i] == x;
  }

  lemma BehindMember(nodes: seq<OrderNode>, queues: seq<seq<nat>>, descending: bool, t: nat, x: Order)
    returns (u: nat, i: nat)
    requires AllInSlab(nodes, queues) && t < |queues| && x in Behind(nodes, queues, descending, t)
    ensures u < |queues| && (if descending then u < t else u > t) && i < |queues[u]| && nodes[queues[u][i]].order == x
  {
    var qs := Ranked(nodes, queues, descending);
    var p := Rank(descending, |queues|, t);
    var j := FlattenMember(qs[p + 1..], x);
    u := Rank(descending, |queues|, p + 1 + j);
    assert qs[p + 1..][j] == qs[p + 1 + j];
    i :| 0 <= i < |qs[p + 1 + j]| && qs[p + 1 + j][i] == x;
  }

  lemma {:induction false} FlattenSkip(qs: seq<seq<Order>>, p: nat, r: nat)
    requires p < r <= |qs| && forall j :: p < j < r ==> qs[j] == []
    ensures Flatten(qs[p + 1..]) == if r < |qs| then qs[r] + Flatten(qs[r + 1..]) else []
    decreases r - p
  {
    if p + 1 < |qs| {
      assert qs[p + 1..][1..] == qs[p + 2..];
      if p + 1 < r {
        FlattenSkip(qs, p + 1, r);
      }
    }
  }

  /** Behind tick `t` comes the next tick with a queue. */
  lemma BehindNext(nodes: seq<OrderNode>, queues: seq<seq<nat>>, descending: bool, t: nat, n: nat)
    requires AllInSlab(nodes, queues) && t < |queues| && n < |queues| && (if descending then n < t else t < n)
    requires forall u :: 0 <= u < |queues| && (if descending then n < u < t else t < u < n) ==> queues[u] == []
    ensures Behind(nodes, queues, descending, t) == OrdersAt(nodes, queues[n]) + Behind(nodes, queues, descending, n)
  {
    hide Flatten, AllInSlab, OrdersAt, Ranked;
    var qs, p, r := Ranked(nodes, queues, descending), Rank(descending, |queues|, t), Rank(descending, |queues|, n);
    forall j | p < j < r ensures qs[j] == [] {
      assert queues[Rank(descending, |queues|, j)] == [];
    }
    FlattenSkip(qs, p, r);
  }

  lemma BehindNothing(nodes: seq<OrderNode>, queues: seq<seq<nat>>, descending: bool, t: nat)
    requires AllInSlab(nodes, queues) && t < |queues|
    requires forall u :: 0 <= u < |queues| && (if descending then u < t else t < u) ==> queues[u] == []
    ensures Behind(nodes, queues, descending, t) == []
  {
    hide Flatten, AllInSlab;
    var qs, p := Ranked(nodes, queues, descending), Rank(descending, |queues|, t);
    forall j | p < j < |qs| ensures qs[j] == [] {
      assert queues[Rank(descending, |queues|, j)] == [];
    }
    FlattenSkip(qs, p, |qs|);
  }
}

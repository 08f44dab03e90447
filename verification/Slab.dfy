/** Orders in a slab of nodes, reused through a free list, and FIFO queues
    threaded through the slab by index. */
module Slab {
  import opened Types
  import opened Matching

  /** The handle that refers to nothing: the largest 32-bit value. */
  const NULL_HANDLE: nat := 0xFFFF_FFFF

  datatype OrderNode = OrderNode(order: Order, prev: nat, next: nat)

  // ----- chains of handles

  ghost predicate InSlab(nodes: seq<OrderNode>, q: seq<nat>) {
    forall i :: 0 <= i < |q| ==> q[i] < |nodes|
  }

  ghost predicate Distinct(q: seq<nat>) {
    forall i, j :: 0 <= i < j < |q| ==> q[i] != q[j]
  }

  function At(q: seq<nat>, i: int): nat {
    if 0 <= i < |q| then q[i] else NULL_HANDLE
  }

  function OrdersAt(nodes: seq<OrderNode>, q: seq<nat>): (os: seq<Order>)
    requires InSlab(nodes, q)
    ensures |os| == |q| && forall i {:trigger os[i]} :: 0 <= i < |q| ==> os[i] == nodes[q[i]].order
  {
    seq(|q|, i requires 0 <= i < |q| => nodes[q[i]].order)
  }

  // ----- the slab

  class OrderPool {
    var nodes: seq<OrderNode>
    var freeHead: nat
    var live: nat
    ghost var free: seq<nat>

    ghost predicate Valid()
      reads this
    {
      && |nodes| <= NULL_HANDLE
      && InSlab(nodes, free) && Distinct(free)
      && freeHead == At(free, 0)
      && (forall i {:trigger nodes[free[i]]} :: 0 <= i < |free| ==> nodes[free[i]].next == At(free, i + 1))
      && live + |free| == |nodes|
    }

    /** The handles that hold an order. */
    ghost predicate IsLive(h: nat)
      reads this
    {
      h < |nodes| && h !in free
    }

    constructor ()
      ensures Valid() && nodes == [] && free == []
    {
      nodes, freeHead, live, free := [], NULL_HANDLE, 0, [];
    }

    method Acquire(order: Order) returns (handle: nat)
      requires Valid() && (free == [] ==> |nodes| < NULL_HANDLE)
      modifies this
      ensures Valid() && |old(nodes)| <= |nodes| <= |old(nodes)| + 1
      ensures IsLive(handle) && !old(IsLive(handle)) && nodes[handle] == OrderNode(order, NULL_HANDLE, NULL_HANDLE)
      ensures forall h: nat :: IsLive(h) <==> h == handle || old(IsLive(h))
      ensures forall h: nat :: h != handle && h < |old(nodes)| ==> nodes[h] == old(nodes[h])
      ensures live == old(live) + 1
    {
      if freeHead != NULL_HANDLE {
        handle := freeHead;
        freeHead := nodes[freeHead].next;
        nodes := nodes[handle := OrderNode(order, NULL_HANDLE, NULL_HANDLE)];
        free := free[1..];
      } else {
        handle := |nodes|;
        nodes := nodes + [OrderNode(order, NULL_HANDLE, NULL_HANDLE)];
      }
      live := live + 1;
    }

    method Release(handle: nat)
      requires Valid() && IsLive(handle)
      modifies this
      ensures Valid() && |nodes| == |old(nodes)|
      ensures forall h: nat :: IsLive(h) <==> h != handle && old(IsLive(h))
      ensures forall h: nat :: h != handle && h < |nodes| ==> nodes[h] == old(nodes[h])
      ensures live == old(live) - 1
    {
      LiveCount(handle);
      nodes := nodes[handle := nodes[handle].(prev := NULL_HANDLE, next := freeHead)];
      freeHead := handle;
      live := live - 1;
      free := [handle] + free;
    }

    method SetOrder(handle: nat, order: Order)
      requires Valid() && IsLive(handle)
      modifies this`nodes
      ensures Valid() && nodes == old(nodes)[handle := old(nodes[handle]).(order := order)]
      ensures forall h: nat :: IsLive(h) <==> old(IsLive(h))
    {
      nodes := nodes[handle := nodes[handle].(order := order)];
    }

    lemma LiveCount(h: nat)
      requires Valid() && IsLive(h)
      ensures live > 0
    {
      DistinctBound(free + [h], |nodes|);
    }
  }

  /** Distinct numbers below a bound are at most that many. */
  lemma {:induction false} DistinctBound(q: seq<nat>, bound: nat)
    requires Distinct(q) && forall i :: 0 <= i < |q| ==> q[i] < bound
    ensures |q| <= bound
  {
    assert |q| > 0 ==> q[0] < bound;
    if bound > 0 {
      if k :| 0 <= k < |q| && q[k] == bound - 1 {
        DistinctBound(q[..k] + q[k + 1..], bound - 1);
      } else {
        DistinctBound(q, bound - 1);
      }
    }
  }

  // ----- one price level: a doubly linked queue through the slab

  datatype PriceLevel = PriceLevel(head: nat, tail: nat, total: nat, count: nat)

  const EMPTY_LEVEL := PriceLevel(NULL_HANDLE, NULL_HANDLE, 0, 0)

  /** Head, tail and the links of the nodes spell out exactly the queue `q`. */
  ghost predicate Chained(nodes: seq<OrderNode>, head: nat, tail: nat, q: seq<nat>) {
    && |nodes| <= NULL_HANDLE
    && InSlab(nodes, q) && Distinct(q)
    && head == At(q, 0) && tail == At(q, |q| - 1)
    && forall i {:trigger nodes[q[i]]} :: 0 <= i < |q| ==>
       nodes[q[i]].prev == At(q, i - 1) && nodes[q[i]].next == At(q, i + 1)
  }

  ghost predicate Linked(nodes: seq<OrderNode>, level: PriceLevel, q: seq<nat>) {
    && Chained(nodes, level.head, level.tail, q)
    && level.count == |q|
    && level.total == Total(OrdersAt(nodes, q))
  }

  /** The orders of the slab are as they were, and so are the links off `q`. */
  ghost predicate OnlyLinksOf(before: seq<OrderNode>, after: seq<OrderNode>, q: seq<nat>) {
    && |after| == |before|
    && (forall h :: 0 <= h < |before| ==> after[h].order == before[h].order)
    && (forall h :: 0 <= h < |before| && h !in q ==> after[h] == before[h])
  }

  /** Relinking live nodes leaves the free list alone. */
  lemma FreeUntouched(before: seq<OrderNode>, after: seq<OrderNode>, q: seq<nat>, free: seq<nat>)
    requires OnlyLinksOf(before, after, q) && InSlab(before, free) && forall h :: h in q ==> h !in free
    ensures |after| == |before| && forall i {:trigger after[free[i]]} :: 0 <= i < |free| ==>
            after[free[i]] == before[free[i]]
  {
    forall i {:trigger after[free[i]]} | 0 <= i < |free| ensures after[free[i]] == before[free[i]] {
      assert free[i] in free;
    }
  }

  lemma {:induction false} TotalConcat(a: seq<Order>, b: seq<Order>)
    ensures Total(a + b) == Total(a) + Total(b)
  {
    if a == [] {
      assert a + b == b;
    } else {
      TotalConcat(a[1..], b);
      assert (a + b)[1..] == a[1..] + b;
    }
  }

  lemma PushChained(before: seq<OrderNode>, head: nat, tail: nat, q: seq<nat>, handle: nat, after: seq<OrderNode>)
    requires Chained(before, head, tail, q) && handle < |before| && handle !in q
    requires OnlyLinksOf(before, after, q + [handle])
    requires after[handle].next == NULL_HANDLE && after[handle].prev == tail
    requires forall i {:trigger before[q[i]]} {:trigger after[q[i]]} :: 0 <= i < |q| - 1 ==> after[q[i]] == before[q[i]]
    requires q != [] ==> after[tail] == before[tail].(next := handle)
    ensures Chained(after, if q == [] then handle else head, handle, q + [handle])
  {
    var r := q + [handle];
    forall i | 0 <= i < |r|
      ensures after[r[i]].prev == At(r, i - 1) && after[r[i]].next == At(r, i + 1)
    {
      if i < |q| {
        assert r[i] == q[i] && At(q, i - 1) == At(r, i - 1);
      }
    }
  }

  /** The slab after a node is appended behind `tail`. */
  function Pushed(nodes: seq<OrderNode>, tail: nat, handle: nat): seq<OrderNode>
    requires handle < |nodes| && (tail == NULL_HANDLE || tail < |nodes|)
  {
    var a := nodes[handle := nodes[handle].(next := NULL_HANDLE, prev := tail)];
    if tail == NULL_HANDLE then a else a[tail := a[tail].(next := handle)]
  }

  lemma TailOf(nodes: seq<OrderNode>, head: nat, tail: nat, q: seq<nat>)
    requires Chained(nodes, head, tail, q)
    ensures InSlab(nodes, q) && (tail == NULL_HANDLE <==> q == [])
    ensures q != [] ==> tail == q[|q| - 1] < |nodes| && forall i :: 0 <= i < |q| - 1 ==> q[i] != tail
  {
  }

  /** What a push does to the nodes. */
  lemma PushedNodes(nodes: seq<OrderNode>, tail: nat, handle: nat, q: seq<nat>)
    requires handle < |nodes| && handle !in q && InSlab(nodes, q) && (tail == NULL_HANDLE <==> q == [])
    requires q != [] ==> tail == q[|q| - 1] < |nodes| && forall i :: 0 <= i < |q| - 1 ==> q[i] != tail
    ensures var after := Pushed(nodes, tail, handle);
            && OnlyLinksOf(nodes, after, q + [handle])
            && after[handle].next == NULL_HANDLE && after[handle].prev == tail
            && (forall i {:trigger nodes[q[i]]} {:trigger after[q[i]]} :: 0 <= i < |q| - 1 ==>
                after[q[i]] == nodes[q[i]])
            && (q != [] ==> after[tail] == nodes[tail].(next := handle))
  {
    var after := Pushed(nodes, tail, handle);
    forall h | 0 <= h < |nodes| && h !in q + [handle] ensures after[h] == nodes[h] {
      assert h != handle && (q != [] ==> h != tail);
    }
  }

  lemma PushedLinks(nodes: seq<OrderNode>, level: PriceLevel, handle: nat, q: seq<nat>)
    requires Linked(nodes, level, q) && handle < |nodes| && handle !in q
    ensures level.tail == NULL_HANDLE <==> q == []
    ensures level.tail == NULL_HANDLE || level.tail < |nodes|
    ensures var after := Pushed(nodes, level.tail, handle);
            && OnlyLinksOf(nodes, after, q + [handle])
            && Linked(after, PriceLevel(if q == [] then handle else level.head, handle,
                                        level.total + nodes[handle].order.remaining, level.count + 1), q + [handle])
  {
    hide Total, Pushed, Chained;
    TailOf(nodes, level.head, level.tail, q);
    PushedNodes(nodes, level.tail, handle, q);
    var after := Pushed(nodes, level.tail, handle);
    PushChained(nodes, level.head, level.tail, q, handle, after);
    PushTotal(nodes, q, handle, after);
  }

  method PushBack(pool: OrderPool, level: PriceLevel, handle: nat, ghost q: seq<nat>) returns (level': PriceLevel)
    requires Linked(pool.nodes, level, q) && handle < |pool.nodes| && handle !in q
    requires pool.Valid() && forall h :: h in q + [handle] ==> pool.IsLive(h)
    modifies pool`nodes
    ensures pool.Valid() && forall h: nat :: pool.IsLive(h) <==> old(pool.IsLive(h))
    ensures Linked(pool.nodes, level', q + [handle])
    ensures OnlyLinksOf(old(pool.nodes), pool.nodes, q + [handle])
  {
    hide Linked, OnlyLinksOf;
    PushedLinks(pool.nodes, level, handle, q);
    FreeUntouched(pool.nodes, Pushed(pool.nodes, level.tail, handle), q + [handle], pool.free);
    var node := pool.nodes[handle];
    pool.nodes := pool.nodes[handle := node.(next := NULL_HANDLE, prev := level.tail)];
    var head := level.head;
    if level.tail == NULL_HANDLE {
      head := handle;
    } else {
      pool.nodes := pool.nodes[level.tail := pool.nodes[level.tail].(next := handle)];
    }
    level' := PriceLevel(head, handle, level.total + node.order.remaining, level.count + 1);
  }

  lemma PushTotal(before: seq<OrderNode>, q: seq<nat>, handle: nat, after: seq<OrderNode>)
    requires InSlab(before, q) && handle < |before| && |after| == |before|
    requires forall h :: 0 <= h < |before| ==> after[h].order == before[h].order
    ensures InSlab(after, q + [handle])
    ensures Total(OrdersAt(after, q + [handle])) == Total(OrdersAt(before, q)) + before[handle].order.remaining
  {
    assert OrdersAt(after, q + [handle]) == OrdersAt(before, q) + [before[handle].order];
    TotalConcat(OrdersAt(before, q), [before[handle].order]);
  }

  /** `r` is `q` without its element `k`. */
  ghost predicate Skips(r: seq<nat>, q: seq<nat>, k: nat) {
    k < |q| && |r| == |q| - 1 && forall i :: 0 <= i < |r| ==> r[i] == q[Past(i, k)]
  }

  lemma SkipsDistinct(r: seq<nat>, q: seq<nat>, k: nat)
    requires Skips(r, q, k) && Distinct(q)
    ensures Distinct(r)
  {
    forall i, j | 0 <= i < j < |r| ensures r[i] != r[j] {
      assert q[Past(i, k)] != q[Past(j, k)];
    }
  }

  lemma UnlinkChainedAt(before: seq<OrderNode>, head: nat, tail: nat, q: seq<nat>, k: nat, after: seq<OrderNode>,
                        r: seq<nat>, i: nat)
    requires Chained(before, head, tail, q) && |after| == |before| && Skips(r, q, k) && i < |r|
    requires forall i {:trigger before[q[i]]} {:trigger after[q[i]]} ::
               0 <= i < |q| && i != k - 1 && i != k && i != k + 1 ==> after[q[i]] == before[q[i]]
    requires k > 0 ==> after[q[k - 1]] == before[q[k - 1]].(next := At(q, k + 1))
    requires k + 1 < |q| ==> after[q[k + 1]] == before[q[k + 1]].(prev := At(q, k - 1))
    ensures r[i] < |after| && after[r[i]].prev == At(r, i - 1) && after[r[i]].next == At(r, i + 1)
  {
    assert i > 0 ==> r[i - 1] == q[Past(i - 1, k)];
    assert i + 1 < |r| ==> r[i + 1] == q[Past(i + 1, k)];
    if i < k {
      assert r[i] == q[i];
    } else {
      assert r[i] == q[i + 1];
    }
  }

  lemma UnlinkChained(before: seq<OrderNode>, head: nat, tail: nat, q: seq<nat>, k: nat, after: seq<OrderNode>,
                      r: seq<nat>)
    requires Chained(before, head, tail, q) && |after| == |before| && Skips(r, q, k)
    requires forall i {:trigger before[q[i]]} {:trigger after[q[i]]} ::
               0 <= i < |q| && i != k - 1 && i != k && i != k + 1 ==> after[q[i]] == before[q[i]]
    requires k > 0 ==> after[q[k - 1]] == before[q[k - 1]].(next := At(q, k + 1))
    requires k + 1 < |q| ==> after[q[k + 1]] == before[q[k + 1]].(prev := At(q, k - 1))
    ensures Chained(after, if k == 0 then At(q, 1) else head, if k + 1 == |q| then At(q, k - 1) else tail, r)
  {
    SkipsDistinct(r, q, k);
    assert InSlab(after, r);
    forall i {:trigger after[r[i]]} | 0 <= i < |r|
      ensures after[r[i]].prev == At(r, i - 1) && after[r[i]].next == At(r, i + 1)
    {
      UnlinkChainedAt(before, head, tail, q, k, after, r, i);
    }
  }

  lemma UnlinkTotal(before: seq<OrderNode>, q: seq<nat>, k: nat, after: seq<OrderNode>)
    requires InSlab(before, q) && k < |q| && |after| == |before|
    requires forall h :: 0 <= h < |before| ==> after[h].order == before[h].order
    ensures InSlab(after, q[..k] + q[k + 1..])
    ensures Total(OrdersAt(before, q)) == Total(OrdersAt(after, q[..k] + q[k + 1..])) + before[q[k]].order.remaining
  {
    var os, o := OrdersAt(before, q), before[q[k]].order;
    assert os == os[..k] + ([o] + os[k + 1..]);
    assert OrdersAt(after, q[..k] + q[k + 1..]) == os[..k] + os[k + 1..];
    TotalConcat(os[..k], [o] + os[k + 1..]);
    TotalConcat([o], os[k + 1..]);
    TotalConcat(os[..k], os[k + 1..]);
  }

  /** The slab after a node is taken out of its queue. */
  function Unlinked(nodes: seq<OrderNode>, handle: nat): seq<OrderNode>
    requires handle < |nodes|
    requires nodes[handle].prev == NULL_HANDLE || nodes[handle].prev < |nodes|
    requires nodes[handle].next == NULL_HANDLE || nodes[handle].next < |nodes|
  {
    var node := nodes[handle];
    var a := if node.prev == NULL_HANDLE then nodes else nodes[node.prev := nodes[node.prev].(next := node.next)];
    var b := if node.next == NULL_HANDLE then a else a[node.next := a[node.next].(prev := node.prev)];
    b[handle := node.(prev := NULL_HANDLE, next := NULL_HANDLE)]
  }

  lemma UnlinkNeighbours(nodes: seq<OrderNode>, level: PriceLevel, q: seq<nat>, k: nat)
    requires Linked(nodes, level, q) && k < |q|
    ensures q[k] < |nodes| && level.count > 0
    ensures var node := nodes[q[k]];
            && node.prev == At(q, k - 1) && node.next == At(q, k + 1)
            && (node.prev == NULL_HANDLE <==> k == 0) && (k > 0 ==> node.prev == q[k - 1] < |nodes|)
            && (node.next == NULL_HANDLE <==> k + 1 == |q|) && (k + 1 < |q| ==> node.next == q[k + 1] < |nodes|)
            && nodes[q[k]].order.remaining <= level.total
  {
    UnlinkTotal(nodes, q, k, nodes);
  }

  lemma UnlinkedNodes(nodes: seq<OrderNode>, handle: nat)
    requires handle < |nodes| <= NULL_HANDLE
    requires nodes[handle].prev == NULL_HANDLE || (nodes[handle].prev < |nodes| && nodes[handle].prev != handle)
    requires nodes[handle].next == NULL_HANDLE || (nodes[handle].next < |nodes| && nodes[handle].next != handle)
    requires nodes[handle].prev == nodes[handle].next ==> nodes[handle].prev == NULL_HANDLE
    ensures var node, after := nodes[handle], Unlinked(nodes, handle);
            && |after| == |nodes|
            && (forall h :: 0 <= h < |nodes| ==> after[h].order == nodes[h].order)
            && (forall h :: 0 <= h < |nodes| && h != handle && h != node.prev && h != node.next ==>
                after[h] == nodes[h])
            && (node.prev != NULL_HANDLE ==> after[node.prev] == nodes[node.prev].(next := node.next))
            && (node.next != NULL_HANDLE ==> after[node.next] == nodes[node.next].(prev := node.prev))
  {
  }

  lemma UnlinkedChain(nodes: seq<OrderNode>, head: nat, tail: nat, q: seq<nat>, k: nat, r: seq<nat>)
    requires Chained(nodes, head, tail, q) && Skips(r, q, k)
    requires nodes[q[k]].prev == At(q, k - 1) && nodes[q[k]].next == At(q, k + 1)
    ensures var after := Unlinked(nodes, q[k]);
            && OnlyLinksOf(nodes, after, q)
            && Chained(after, if k == 0 then At(q, 1) else head, if k + 1 == |q| then At(q, k - 1) else tail, r)
  {
    UnlinkedNodes(nodes, q[k]);
    hide Unlinked;
    UnlinkChained(nodes, head, tail, q, k, Unlinked(nodes, q[k]), r);
  }

  lemma ChainedInSlab(nodes: seq<OrderNode>, head: nat, tail: nat, q: seq<nat>, k: nat)
    requires Chained(nodes, head, tail, q) && k < |q|
    ensures InSlab(nodes, q)
    ensures At(q, k - 1) == NULL_HANDLE || At(q, k - 1) < |nodes|
    ensures At(q, k + 1) == NULL_HANDLE || At(q, k + 1) < |nodes|
  {
  }

  lemma UnlinkedLinks(nodes: seq<OrderNode>, level: PriceLevel, q: seq<nat>, k: nat)
    requires Linked(nodes, level, q) && k < |q| && q[k] < |nodes|
    requires nodes[q[k]].prev == At(q, k - 1) && nodes[q[k]].next == At(q, k + 1)
    requires nodes[q[k]].order.remaining <= level.total
    ensures OnlyLinksOf(nodes, Unlinked(nodes, q[k]), q)
    ensures Linked(Unlinked(nodes, q[k]),
                   PriceLevel(if k == 0 then At(q, 1) else level.head,
                              if k + 1 == |q| then At(q, k - 1) else level.tail,
                              level.total - nodes[q[k]].order.remaining, level.count - 1),
                   q[..k] + q[k + 1..])
  {
    hide Total, Unlinked, Chained;
    ChainedInSlab(nodes, level.head, level.tail, q, k);
    var r := q[..k] + q[k + 1..];
    assert Skips(r, q, k);
    UnlinkedChain(nodes, level.head, level.tail, q, k, r);
    UnlinkTotal(nodes, q, k, Unlinked(nodes, q[k]));
  }

  method Unlink(pool: OrderPool, level: PriceLevel, handle: nat, ghost q: seq<nat>, ghost k: nat)
    returns (level': PriceLevel)
    requires Linked(pool.nodes, level, q) && k < |q| && q[k] == handle
    requires pool.Valid() && forall h :: h in q ==> pool.IsLive(h)
    modifies pool`nodes
    ensures pool.Valid() && forall h: nat :: pool.IsLive(h) <==> old(pool.IsLive(h))
    ensures Linked(pool.nodes, level', q[..k] + q[k + 1..])
    ensures OnlyLinksOf(old(pool.nodes), pool.nodes, q)
  {
    hide Linked, OnlyLinksOf;
    UnlinkNeighbours(pool.nodes, level, q, k);
    UnlinkedLinks(pool.nodes, level, q, k);
    FreeUntouched(pool.nodes, Unlinked(pool.nodes, handle), q, pool.free);
    var node := pool.nodes[handle];
    var head, tail := level.head, level.tail;
    if node.prev != NULL_HANDLE {
      pool.nodes := pool.nodes[node.prev := pool.nodes[node.prev].(next := node.next)];
    } else {
      head := node.next;
    }
    if node.next != NULL_HANDLE {
      pool.nodes := pool.nodes[node.next := pool.nodes[node.next].(prev := node.prev)];
    } else {
      tail := node.prev;
    }
    pool.nodes := pool.nodes[handle := node.(prev := NULL_HANDLE, next := NULL_HANDLE)];
    level' := PriceLevel(head, tail, level.total - node.order.remaining, level.count - 1);
  }
}

/** The book as the market sees it: one entry for each price, best first. */
module DepthView {
  import opened Types
  import opened Matching

  datatype DepthLevel = DepthLevel(price: int, quantity: nat, orders: nat)

  /** A side with the orders of each price added together. */
  function Aggregate(q: seq<Order>): seq<DepthLevel> {
    if q == [] then []
    else
      var rest := Aggregate(q[1..]);
      if rest != [] && rest[0].price == q[0].price
      then [DepthLevel(q[0].price, rest[0].quantity + q[0].remaining, rest[0].orders + 1)] + rest[1..]
      else [DepthLevel(q[0].price, q[0].remaining, 1)] + rest
  }

  /** The first `n` levels, or all of them when there are fewer. */
  function Foremost(levels: seq<DepthLevel>, n: nat): seq<DepthLevel> {
    levels[..Min(n, |levels|)]
  }

  lemma AggregateHead(q: seq<Order>)
    ensures q == [] <==> Aggregate(q) == []
    ensures q != [] ==> Aggregate(q)[0].price == q[0].price
  {
  }

  /** A whole price level in front becomes one entry: its total and its count. */
  lemma {:induction false} AggregateLevel(os: seq<Order>, rest: seq<Order>, price: int)
    requires os != [] && forall i :: 0 <= i < |os| ==> os[i].price == price
    requires rest == [] || rest[0].price != price
    ensures Aggregate(os + rest) == [DepthLevel(price, Total(os), |os|)] + Aggregate(rest)
  {
    assert (os + rest)[1..] == os[1..] + rest;
    AggregateHead(rest);
    if |os| == 1 {
      assert os[1..] + rest == rest && os[1..] == [];
    } else {
      AggregateLevel(os[1..], rest, price);
    }
  }

  /** The size and the number of the orders at one price. */
  function SizeAt(q: seq<Order>, price: int): nat {
    if q == [] then 0 else (if q[0].price == price then q[0].remaining else 0) + SizeAt(q[1..], price)
  }

  function CountAt(q: seq<Order>, price: int): nat {
    if q == [] then 0 else (if q[0].price == price then 1 else 0) + CountAt(q[1..], price)
  }

  /** The prices come best first, each once and none missing; each entry is the size and the number
      of the orders at its price, and nothing is lost in the adding up. */
  lemma {:induction false} AggregateFaithful(q: seq<Order>, side: Side)
    requires Sorted(q) && forall i :: 0 <= i < |q| ==> q[i].side == side
    ensures var d := Aggregate(q);
            && (forall i, j :: 0 <= i < j < |d| ==> BetterPrice(side, d[i].price, d[j].price))
            && (forall i :: 0 <= i < |d| ==>
                d[i] == DepthLevel(d[i].price, SizeAt(q, d[i].price), CountAt(q, d[i].price)))
            && (forall j :: 0 <= j < |q| ==> exists i :: 0 <= i < |d| && d[i].price == q[j].price)
    ensures DepthTotal(Aggregate(q)) == Total(q) && DepthCount(Aggregate(q)) == |q|
  {
    hide SizeAt, CountAt;
    if q != [] {
      AggregateFaithful(q[1..], side);
      AggregateHead(q[1..]);
      if q[1..] != [] {
        assert Precedes(q[0], q[1]);
      }
      AggregateStep(q, side);
    }
  }

  /** One more order in front: it joins the first entry or makes one of its own. */
  lemma AggregateStep(q: seq<Order>, side: Side)
    requires q != [] && (q[1..] != [] ==> q[0].price == q[1].price || BetterPrice(side, q[0].price, q[1].price))
    requires var d := Aggregate(q[1..]);
             && (q[1..] != [] <==> d != []) && (d != [] ==> d[0].price == q[1].price)
             && (forall i, j :: 0 <= i < j < |d| ==> BetterPrice(side, d[i].price, d[j].price))
             && (forall i :: 0 <= i < |d| ==>
                   d[i] == DepthLevel(d[i].price, SizeAt(q[1..], d[i].price), CountAt(q[1..], d[i].price)))
             && (forall j :: 0 <= j < |q[1..]| ==> exists i :: 0 <= i < |d| && d[i].price == q[1..][j].price)
             && DepthTotal(d) == Total(q[1..]) && DepthCount(d) == |q[1..]|
    ensures var d := Aggregate(q);
            && (forall i, j :: 0 <= i < j < |d| ==> BetterPrice(side, d[i].price, d[j].price))
            && (forall i :: 0 <= i < |d| ==>
                d[i] == DepthLevel(d[i].price, SizeAt(q, d[i].price), CountAt(q, d[i].price)))
            && (forall j :: 0 <= j < |q| ==> exists i :: 0 <= i < |d| && d[i].price == q[j].price)
            && DepthTotal(d) == Total(q) && DepthCount(d) == |q|
  {
    var d, rest := Aggregate(q), Aggregate(q[1..]);
    var joins := rest != [] && rest[0].price == q[0].price;
    if joins {
      assert d[1..] == rest[1..];
    } else {
      assert d[1..] == rest;
      NothingAt(q[1..], q[0].price);
    }
    forall j | 0 <= j < |q| ensures exists i :: 0 <= i < |d| && d[i].price == q[j].price {
      if j == 0 {
        assert d[0].price == q[0].price;
      } else {
        var o := q[1..][j - 1];
        var i :| 0 <= i < |rest| && rest[i].price == o.price;
        assert d[if joins then i else i + 1].price == q[j].price;
      }
    }
  }

  lemma {:induction false} NothingAt(q: seq<Order>, price: int)
    requires forall j :: 0 <= j < |q| ==> q[j].price != price
    ensures SizeAt(q, price) == 0 && CountAt(q, price) == 0
  {
    if q != [] {
      NothingAt(q[1..], price);
    }
  }

  function DepthTotal(d: seq<DepthLevel>): nat {
    if d == [] then 0 else d[0].quantity + DepthTotal(d[1..])
  }

  function DepthCount(d: seq<DepthLevel>): nat {
    if d == [] then 0 else d[0].orders + DepthCount(d[1..])
  }
}

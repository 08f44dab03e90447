/** The vocabulary shared by every component: identifiers, prices, orders, the
    things an order can turn into, and the static configuration of an instrument.

    Identifiers, quantities and sequence numbers are naturals and prices are
    integers.  The fixed widths that matter (journal and wire fields, bitmap
    words, slab handles, risk products) are written out where they matter. */
module Types {

  datatype Option<+T> = None | Some(value: T)

  type U8 = n: nat | n < 0x100
  type U16 = n: nat | n < 0x1_0000
  type U32 = n: nat | n < 0x1_0000_0000
  type U64 = n: nat | n < 0x1_0000_0000_0000_0000
  type I64 = n: int | -0x8000_0000_0000_0000 <= n < 0x8000_0000_0000_0000

  /** Zero is the "no such thing" value of every identifier. */
  predicate ValidId(id: nat) { id != 0 }

  const NO_PRICE := 0

  datatype Side = Buy | Sell {
    function Opposite(): Side { if Buy? then Sell else Buy }
  }

  datatype OrderType = Limit | Market

  datatype TimeInForce = Day | ImmediateOrCancel | FillOrKill | GoodTilCancelled

  datatype SelfTradePolicy = Allow | CancelIncoming | CancelResting | CancelBoth | DecrementBoth

  datatype RejectReason =
    | Accepted
    | UnknownInstrument
    | UnknownOrder
    | DuplicateOrderId
    | InvalidPrice
    | InvalidQuantity
    | InvalidSide
    | FillOrKillUnfillable
    | PostOnlyWouldCross
    | SelfTrade
    | RiskLimit
    | PriceCollar
    | Halted
    | RateLimit

  datatype Order = Order(
    id: nat,
    account: nat,
    instrument: nat,
    price: int,
    quantity: nat,
    remaining: nat,
    side: Side,
    kind: OrderType,
    tif: TimeInForce,
    acceptedAt: int,
    sequence: nat,
    postOnly: bool)
  {
    function Filled(): int { quantity - remaining }
  }

  datatype Fill = Fill(
    id: nat,
    instrument: nat,
    price: int,
    quantity: nat,
    aggressorOrder: nat,
    restingOrder: nat,
    aggressorAccount: nat,
    restingAccount: nat,
    aggressorSide: Side,
    restingFilled: bool,
    timestamp: int)

  /** Quantity taken off the book by self-trade prevention, without a trade. */
  datatype Withdrawal = Withdrawal(
    order: nat,
    account: nat,
    instrument: nat,
    side: Side,
    quantity: nat,
    fullyRemoved: bool,
    reason: RejectReason)

  datatype Instrument = Instrument(
    id: nat,
    symbol: seq<U8>,
    tickSize: int,
    lotSize: nat,
    minQuantity: nat,
    minPrice: int,
    maxPrice: int,
    displayExponent: U8,
    selfTradePolicy: SelfTradePolicy)
  {
    /** What an instrument needs for its own arithmetic to be defined: a
        positive grid, positive lots and a non-empty positive band. */
    predicate WellFormed() {
      tickSize >= 1 && lotSize >= 1 && 1 <= minPrice <= maxPrice
    }

    predicate IsValidPrice(price: int)
      requires WellFormed()
    {
      price > 0 && price % tickSize == 0 && minPrice <= price <= maxPrice
    }

    predicate IsValidQuantity(quantity: nat)
      requires WellFormed()
    {
      quantity >= minQuantity && quantity % lotSize == 0
    }

    function LadderBase(): int
      requires WellFormed()
    {
      (minPrice / tickSize) * tickSize
    }

    function TickCount(): int
      requires WellFormed()
    {
      (maxPrice - LadderBase()) / tickSize + 1
    }
  }

  function Min(a: nat, b: nat): nat { if a <= b then a else b }

  /** Where position `i` of a sequence without its element `k` comes from. */
  function Past(i: nat, k: nat): nat { if i < k then i else i + 1 }
}

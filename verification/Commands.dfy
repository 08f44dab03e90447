/** What clients ask of the venue. */
module Commands {
  import opened Types

  datatype NewOrder = NewOrder(
    id: U64,
    account: U64,
    instrument: U64,
    side: Side,
    kind: OrderType,
    tif: TimeInForce,
    price: I64,
    quantity: U64,
    postOnly: bool)

  datatype CancelOrder = CancelOrder(id: U64, account: U64, instrument: U64)

  datatype ReplaceOrder = ReplaceOrder(id: U64, account: U64, instrument: U64, newPrice: I64, newQuantity: U64)
}

/** Orders, fills and book entries shared by the bots and the golden order book. */
module Orders {

  datatype Option<+T> = None | Some(value: T)

  datatype Result<+T, +E> = Ok(value: T) | Err(error: E)

  /** The source's sides and kinds are strings: a side other than "buy" takes the sell branch
      everywhere, and a kind outside the three known ones is an error. */
  datatype Side = Buy | Sell | UnknownSide(name: string)

  datatype Kind = Limit | Market | Cancel | UnknownKind(name: string)

  /** Prices are integer cents. For a cancel, `id` names the order to withdraw. */
  datatype Order = Order(id: string, kind: Kind, side: Side, price: int, quantity: int)

  datatype Fill = Fill(orderId: string, executedPrice: int, executedQty: int, accepted: bool)

  datatype OrderError = EmptyId | BadKind(name: string)

  function Rejected(id: string): Fill {
    Fill(id, 0, 0, false)
  }

  /** A limit order the book does not turn away. */
  predicate GoodLimit(o: Order) {
    o.kind.Limit? && o.id != "" && o.quantity > 0 && o.price > 0
  }

  /** No two limit orders of the sequence carry the same id. */
  ghost predicate FreshLimitIds(os: seq<Order>) {
    forall i, j :: 0 <= i < j < |os| && os[i].kind.Limit? && os[j].kind.Limit? ==> os[i].id != os[j].id
  }

  /** A resting limit order. `A` is what records its arrival: a number in the engine, nothing in
      the price-time book, where the position in the queue says it. */
  datatype Entry<+A> = Entry(id: string, side: Side, price: int, quantity: int, remaining: int, arrival: A)
}

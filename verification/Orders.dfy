/** Orders, the order repository and the events of the log, as values. */
module Orders {
  import opened Domain
  import opened Matching

  datatype Order = Order(id: OrderId, account: AccountId, symbol: Symbol, side: Side, otype: OrderType,
                         qty: real, price: Option<real>, status: Status, createdAt: int, filled: real) {
    function Remaining(): real { qty - filled }

    predicate IsCancelable() { status in {Pending, Accepted, Routed, PartiallyFilled} }

    /** The price a BUY order locks cash at. */
    function Limit(): real { if price.Some? then price.value else 0.0 }

    /** The price an order is matched at. */
    function MatchPrice(): real { EffectivePrice(side, otype, price) }
  }

  function EffectivePrice(side: Side, otype: OrderType, price: Option<real>): real {
    match otype
    case Market => if side == Buy then 999999999.0 else 0.0
    case Limit => if price.Some? then price.value else 0.0
  }

  /** The orders by id, with the ids in order of arrival. */
  datatype Repo = Repo(ids: seq<OrderId>, orders: map<OrderId, Order>) {
    function Add(o: Order): Repo {
      Repo(if o.id in orders then ids else ids + [o.id], orders[o.id := o])
    }

    function Set(o: Order): Repo { this.(orders := orders[o.id := o]) }
  }

  function Transition(o: Order, to: Status): Outcome<Order> {
    if to in Successors(o.status) then Done(o.(status := to)) else Raised(InvalidOrderState)
  }

  /** How far an order has come; the last stage is final. */
  function Stage(s: Status): nat {
    match s
    case Pending => 0
    case Accepted => 1
    case Routed => 2
    case PartiallyFilled => 3
    case _ => 4
  }

  /** Orders only go forward, and a filled, canceled or rejected one goes nowhere. */
  lemma NoWayBack(o: Order, to: Status)
    ensures Transition(o, to).Done? ==> Stage(o.status) < Stage(to) && Transition(o, to).value == o.(status := to)
    ensures Transition(o, to).Raised? ==> Transition(o, to) == Raised(InvalidOrderState)
  {
  }

  function FillOrder(o: Order, qty: real): Outcome<Order> {
    var o1 := o.(filled := o.filled + qty);
    if o1.filled >= o1.qty then Transition(o1, Filled)
    else if o1.status == Routed then Transition(o1, PartiallyFilled)
    else Done(o1)
  }

  datatype Placement = Placement(id: OrderId, account: AccountId, symbol: Symbol, side: Side, otype: OrderType,
                                 qty: real, price: Option<real>, at: int)

  datatype Event =
    | AccountUpdated(account: AccountId, cashDelta: real, symbol: Symbol, qtyDelta: real)
    | AccountDeleted(account: AccountId)
    | OrderPlaced(placement: Placement)
    | OrderAccepted(id: OrderId)
    | OrderRejected(id: OrderId, reason: Reason)
    | OrderRouted(id: OrderId, symbol: Symbol)
    | OrderCanceled(id: OrderId)
    | OrderFilled(id: OrderId, filledQty: real, cumulativeQty: real, status: Status)
    | CancelRejected(id: OrderId)
    | OrderRemainOnBook(id: OrderId, symbol: Symbol, side: Side, remainingQty: real, originalQty: real)
    | TradeExecuted(trade: Trade)
    | TradeSettlement(buyer: AccountId, seller: AccountId, buyId: OrderId, sellId: OrderId,
                      symbol: Symbol, price: real, qty: real)

  function NewOrder(p: Placement): Order {
    Order(p.id, p.account, p.symbol, p.side, p.otype, p.qty, p.price, Pending, p.at, 0.0)
  }
}

/** Orders and their repository as the objects that are changed in place. */
module OrderRecords {
  import opened Domain
  import opened Orders

  class OrderRecord {
    const id: OrderId
    const account: AccountId
    const symbol: Symbol
    const side: Side
    const otype: OrderType
    const qty: real
    const price: Option<real>
    const createdAt: int
    var status: Status
    var filledQty: real

    constructor (p: Placement)
      ensures View() == NewOrder(p)
    {
      id, account, symbol, side := p.id, p.account, p.symbol, p.side;
      otype, qty, price, createdAt := p.otype, p.qty, p.price, p.at;
      status, filledQty := Pending, 0.0;
    }

    function View(): Order
      reads this
    {
      Order(id, account, symbol, side, otype, qty, price, status, createdAt, filledQty)
    }

    /** The state machine: refuse a move that is not in the table. */
    method Transition(to: Status) returns (error: Option<Error>)
      modifies this`status
      ensures error.None? ==> Done(View()) == Orders.Transition(old(View()), to)
      ensures error.Some? ==> Orders.Transition(old(View()), to) == Raised(error.value) && View() == old(View())
    {
      if to !in Successors(status) {
        return Some(InvalidOrderState);
      }
      status := to;
      return None;
    }

    /** Count a fill and move on to FILLED or PARTIALLY_FILLED. */
    method Fill(fill: real) returns (error: Option<Error>)
      modifies this`status, this`filledQty
      ensures error.None? ==> Done(View()) == FillOrder(old(View()), fill)
      ensures error.Some? ==>
        FillOrder(old(View()), fill) == Raised(error.value) && View() == old(View()).(filled := old(filledQty) + fill)
    {
      filledQty := filledQty + fill;
      error := None;
      if filledQty >= qty {
        error := Transition(Status.Filled);
      } else if status == Routed {
        error := Transition(PartiallyFilled);
      }
    }
  }

  class OrderRepository {
    var orders: map<OrderId, OrderRecord>
    var ids: seq<OrderId>
    ghost var Repr: set<object>

    constructor ()
      ensures Valid() && fresh(Repr) && View() == Repo([], map[])
    {
      orders, ids, Repr := map[], [], {this};
    }

    /** Orders are distinct objects because each carries its own id. */
    ghost predicate Valid()
      reads this, Repr
      ensures Valid() ==> this in Repr
    {
      this in Repr && forall x :: x in orders ==> orders[x] in Repr && orders[x].id == x
    }

    ghost function View(): Repo
      requires Valid()
      reads this, Repr
    {
      Repo(ids, map x | x in orders :: orders[x].View())
    }

    /** What validity says of the orders as values. */
    lemma OrdersUnderTheirIds()
      requires Valid()
      ensures forall x :: x in View().orders ==> View().orders[x].id == x
    {
    }

    method ListIds() returns (list: seq<OrderId>)
      requires Valid()
      ensures list == View().ids
    {
      list := ids;
    }

    method Knows(x: OrderId) returns (known: bool)
      requires Valid()
      ensures known <==> x in View().orders
    {
      known := x in orders;
    }

    method AccountOf(x: OrderId) returns (a: AccountId)
      requires Valid() && x in View().orders
      ensures a == View().orders[x].account
    {
      a := orders[x].account;
    }

    method Add(o: OrderRecord)
      requires Valid()
      modifies this
      ensures Valid() && Repr == old(Repr) + {o} && orders == old(orders)[o.id := o]
      ensures View() == old(View()).Add(o.View())
    {
      hide *;
      ids := if o.id in orders then ids else ids + [o.id];
      orders := orders[o.id := o];
      Repr := Repr + {o};
      OrderAdded(o);
    }

    twostate lemma OrderAdded(o: OrderRecord)
      requires old(Valid()) && orders == old(orders)[o.id := o] && Repr == old(Repr) + {o}
      requires ids == if o.id in old(orders) then old(ids) else old(ids) + [o.id]
      requires forall x: object :: x in old(Repr) && x != this ==> unchanged(x)
      requires unchanged(o)
      ensures Valid() && View() == old(View()).Add(o.View())
    {
      assert o.View().id == o.id;
      hide OrderRecord.View;
      forall x | x in old(orders) && x != o.id
        ensures orders[x] == old(orders)[x] && orders[x].View() == old(orders[x].View())
      {
        assert unchanged(old(orders)[x]);
      }
      assert View().orders == old(View()).orders[o.id := o.View()];
    }

    /** After one order changed, the view changed in that one place. */
    twostate lemma OneOrderMoved(x: OrderId)
      requires old(Valid()) && orders == old(orders) && ids == old(ids) && Repr == old(Repr) && x in orders
      requires forall y :: y in orders && y != x ==> unchanged(orders[y])
      ensures Valid() && View() == Repo(old(View()).ids, old(View()).orders[x := orders[x].View()])
    {
    }
  }
}

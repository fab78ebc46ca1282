/** Shared vocabulary: identifiers, sides, order types and the order life cycle. */
module Domain {
  type OrderId = nat
  type EventId = nat
  type AccountId = string
  type Symbol = string

  datatype Option<+T> = None | Some(value: T)

  datatype Side = Buy | Sell
  datatype OrderType = Limit | Market
  datatype Status = Pending | Accepted | Routed | PartiallyFilled | Filled | Canceled | Rejected
  datatype Reason = InsufficientCash | InsufficientPosition

  /** The exceptions a command may end in. */
  datatype Error = OrderNotFound | InvalidOrderState | CashShortfall | DivisionByZero | NotYourOrder

  /** A computation of the original that either completes or raises. */
  datatype Outcome<+T> = Done(value: T) | Raised(error: Error)

  /** The table of src/oms/order_state_machine.py. */
  function Successors(s: Status): set<Status> {
    match s
    case Pending => {Accepted, Rejected}
    case Accepted => {Routed, Canceled}
    case Routed => {PartiallyFilled, Filled, Canceled}
    case PartiallyFilled => {Filled, Canceled}
    case Filled => {}
    case Canceled => {}
    case Rejected => {}
  }

  function Min(a: real, b: real): real { if a <= b then a else b }

  /** Position of an id in the order in which ids were first recorded (its last occurrence). */
  function Rank(ids: seq<OrderId>, id: OrderId): nat {
    if ids == [] then 0
    else if ids[|ids| - 1] == id then |ids| - 1
    else Rank(ids[..|ids| - 1], id)
  }

  lemma {:induction false} RankBound(ids: seq<OrderId>, id: OrderId)
    requires id in ids
    ensures Rank(ids, id) < |ids| && ids[Rank(ids, id)] == id
  {
    if ids[|ids| - 1] != id {
      assert ids == ids[..|ids| - 1] + [ids[|ids| - 1]];
      RankBound(ids[..|ids| - 1], id);
    }
  }

  lemma RankAppend(ids: seq<OrderId>, x: OrderId, y: OrderId)
    ensures Rank(ids + [x], y) == if x == y then |ids| else Rank(ids, y)
  {
    assert (ids + [x])[..|ids|] == ids;
  }
}

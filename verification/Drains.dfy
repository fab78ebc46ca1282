/** Draining the OMS queue, event by event: what a command does once the OMS has taken it in. */
module Drains {
  import opened Domain
  import opened Ledger
  import opened Orders
  import opened Exchange

  /** The exchange while a queue is drained, with the fill events that arrive behind it. */
  datatype Shop = Shop(state: State, fills: seq<Event>)

  function DeskOf(s: Shop): Desk { Desk(s.state.accounts, s.state.repo, s.state.log, s.fills) }

  /** Match an order of the repository and settle its trades one by one. */
  function RouteToMatcher(s: Shop, id: OrderId): Outcome<Shop> {
    if id !in s.state.repo.orders then Raised(OrderNotFound)
    else
      var o := s.state.repo.orders[id];
      var sub := SubmitOrder(s.state.books, s.state.seen, o.symbol, o.side, Entry(o));
      match ApplyTrades(DeskOf(s), sub.trades)
      case Raised(e) => Raised(e)
      case Done(d) => Done(Shop(State(d.accounts, d.repo, sub.books, sub.seen, d.log + sub.remain), d.fills))
  }

  /** Whatever an event leads to, it is published first; an unknown canceled order has nothing on a book. */
  function Handle(s: Shop, e: Event): Outcome<Shop> {
    var s1 := s.(state := s.state.(log := s.state.log + [e]));
    match e
    case OrderRouted(id, _) => RouteToMatcher(s1, id)
    case OrderCanceled(id) =>
      if id !in s1.state.repo.orders then Done(s1)
      else
        var o := s1.state.repo.orders[id];
        var b := RemoveFromBook(BookOf(s.state.books, o.symbol), id);
        Done(s1.(state := s1.state.(books := s.state.books[o.symbol := b])))
    case _ => Done(s1)
  }

  function HandleAll(s: Shop, es: seq<Event>): Outcome<Shop>
    decreases |es|
  {
    if es == [] then Done(s)
    else
      match Handle(s, es[0])
      case Raised(e) => Raised(e)
      case Done(s1) => HandleAll(s1, es[1..])
  }

  /** Handle the queue, then publish what arrived behind it. */
  function Drain(s: State, queue: seq<Event>): Outcome<State> {
    match HandleAll(Shop(s, []), queue)
    case Raised(e) => Raised(e)
    case Done(sh) => Done(sh.state.(log := sh.state.log + sh.fills))
  }

  function AfterIntake(s: State, p: Placement): State {
    var taken := TakeIn(s.accounts, s.repo, p);
    s.(accounts := taken.accounts, repo := taken.repo, log := s.log + [OrderPlaced(p)])
  }

  lemma HandleOne(s: Shop, e: Event)
    ensures HandleAll(s, [e]) == Handle(s, e)
  {
    hide Handle;
    assert [e][1..] == [];
  }

  lemma HandleTwo(s: Shop, e: Event, f: Event)
    ensures HandleAll(s, [e, f]) ==
      match Handle(s, e)
      case Raised(x) => Raised(x)
      case Done(s1) => Handle(s1, f)
  {
    hide Handle;
    assert [e, f][1..] == [f];
    if Handle(s, e).Done? { HandleOne(Handle(s, e).value, f); }
  }

  /** Taking an order in and draining the queue is the placing step. */
  lemma PlaceIsDrain(s: State, p: Placement)
    ensures PlaceOrder(s, p) == Drain(AfterIntake(s, p), TakeIn(s.accounts, s.repo, p).events)
  {
    var lock := LockFunds(s.accounts, p.account, p.id, p.symbol, p.side, p.qty, p.price);
    var sh := Shop(AfterIntake(s, p), []);
    if lock.rejected.Some? {
      HandleOne(sh, OrderRejected(p.id, lock.rejected.value));
      assert (s.log + [OrderPlaced(p)] + [OrderRejected(p.id, lock.rejected.value)]) + []
        == s.log + [OrderPlaced(p)] + [OrderRejected(p.id, lock.rejected.value)];
    } else {
      HandleTwo(sh, OrderAccepted(p.id), OrderRouted(p.id, p.symbol));
      hide SubmitOrder, ApplyTrades, LockFunds;
      var o := NewOrder(p).(status := Routed);
      assert s.log + [OrderPlaced(p)] + [OrderAccepted(p.id)] + [OrderRouted(p.id, p.symbol)]
          == s.log + [OrderPlaced(p)] + [OrderAccepted(p.id), OrderRouted(p.id, p.symbol)];
    }
  }

  /** Canceling a cancelable order in the OMS and draining the queue is the canceling step. */
  lemma CancelIsDrain(s: State, id: OrderId)
    requires id in s.repo.orders && s.repo.orders[id].status != Pending && s.repo.orders[id].id == id
    ensures var o := s.repo.orders[id];
      CancelOrder(s, id) ==
        if o.IsCancelable()
        then Drain(s.(accounts := Unlock(s.accounts, o.account, id), repo := s.repo.Set(o.(status := Canceled))),
          [OrderCanceled(id)])
        else Drain(s, [CancelRejected(id)])
  {
    var o := s.repo.orders[id];
    var s1 := s.(accounts := Unlock(s.accounts, o.account, id), repo := s.repo.Set(o.(status := Canceled)));
    HandleOne(Shop(s1, []), OrderCanceled(id));
    HandleOne(Shop(s, []), CancelRejected(id));
    assert forall log: seq<Event> :: log + [] == log;
  }
}

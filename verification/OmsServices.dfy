/** The order management service: orders in and out of the repository, and a queue of events to hand on. */
module OmsServices {
  import opened Domain
  import opened Matching
  import opened Ledger
  import opened Orders
  import opened Exchange
  import opened OrderRecords
  import opened AccountServices

  /** A fill the state machine refuses has counted its quantity all the same. */
  function AfterRefusal(repo: Repo, id: OrderId, qty: real): Repo {
    if id !in repo.orders then repo
    else Repo(repo.ids, repo.orders[id := repo.orders[id].(filled := repo.orders[id].filled + qty)])
  }

  /** Both orders of a trade filled and reported, the BUY order first, or only as far as the state machine let it. */
  predicate BothFilled(r0: Repo, r2: Repo, t: Trade, error: Option<Error>, queue: seq<Event>, queue': seq<Event>) {
    match OnFill(r0, t.buyId, t.qty)
    case Raised(e) => error == Some(e) && r2 == AfterRefusal(r0, t.buyId, t.qty) && queue' == queue
    case Done(r1) =>
      match OnFill(r1, t.sellId, t.qty)
      case Raised(e) =>
        error == Some(e) && r2 == AfterRefusal(r1, t.sellId, t.qty) && t.buyId in r1.orders
        && queue' == queue + [FillEvent(r1.orders[t.buyId], t.qty)]
      case Done(r) =>
        error == None && r2 == r && t.buyId in r1.orders && t.sellId in r.orders
        && queue' == queue + [FillEvent(r1.orders[t.buyId], t.qty), FillEvent(r.orders[t.sellId], t.qty)]
  }

  lemma TakeInTells(l: Accounts, r: Repo, p: Placement)
    ensures var short := Shortage(l.Get(p.account), p.symbol, p.side, p.qty, p.price);
      TakeIn(l, r, p).events == if short.None? then [OrderAccepted(p.id), OrderRouted(p.id, p.symbol)]
        else [OrderRejected(p.id, short.value)]
  {
    LockRefusals(l.Get(p.account), p.id, p.symbol, p.side, p.qty, p.price);
  }

  class OmsService {
    const repo: OrderRepository
    const funds: AccountService
    var queue: seq<Event>
    var processed: set<EventId>
    var acceptedCount: nat
    var rejectedCount: nat
    var tradeCount: nat

    constructor (repo: OrderRepository, funds: AccountService)
      ensures this.repo == repo && this.funds == funds && queue == [] && processed == {}
      ensures acceptedCount == rejectedCount == tradeCount == 0
    {
      this.repo, this.funds := repo, funds;
      queue, processed, acceptedCount, rejectedCount, tradeCount := [], {}, 0, 0, 0;
    }

    /** The service works on a repository and a ledger it does not own; they share nothing. */
    ghost predicate Valid()
      reads this, repo, funds, repo.Repr, funds.Repr
    {
      repo.Valid() && funds.Valid() && repo.Repr !! funds.Repr && this !in repo.Repr && this !in funds.Repr
    }

    /** An event seen before is ignored. */
    method PlaceOrder(event: EventId, p: Placement)
      requires Valid()
      modifies this, repo.Repr, funds.Repr
      ensures Valid() && fresh(repo.Repr - old(repo.Repr)) && fresh(funds.Repr - old(funds.Repr))
      ensures processed == old(processed) + {event} && tradeCount == old(tradeCount)
      ensures if event in old(processed) then
          && funds.View() == old(funds.View()) && repo.View() == old(repo.View()) && queue == old(queue)
          && acceptedCount == old(acceptedCount) && rejectedCount == old(rejectedCount)
        else
          var taken := TakeIn(old(funds.View()), old(repo.View()), p);
          && funds.View() == taken.accounts && repo.View() == taken.repo && queue == old(queue) + taken.events
          && acceptedCount == old(acceptedCount) + |taken.events| - 1
          && rejectedCount == old(rejectedCount) + 2 - |taken.events|
      ensures event !in old(processed) ==>
        var short := Shortage(old(funds.View()).Get(p.account), p.symbol, p.side, p.qty, p.price);
        queue == old(queue) + if short.None? then [OrderAccepted(p.id), OrderRouted(p.id, p.symbol)]
          else [OrderRejected(p.id, short.value)]
    {
      hide TakeIn, Shortage, AccountService.View, AccountService.Valid, OrderRepository.View, OrderRepository.Valid;
      if event in processed {
        return;
      }
      TakeInTells(funds.View(), repo.View(), p);
      hide Accounts.Get;
      processed := processed + {event};
      PlaceNew(p);
    }

    method PlaceNew(p: Placement)
      requires Valid()
      modifies this`queue, this`acceptedCount, this`rejectedCount, repo.Repr, funds.Repr
      ensures Valid() && fresh(repo.Repr - old(repo.Repr)) && fresh(funds.Repr - old(funds.Repr))
      ensures var taken := TakeIn(old(funds.View()), old(repo.View()), p);
        && funds.View() == taken.accounts && repo.View() == taken.repo && queue == old(queue) + taken.events
        && acceptedCount == old(acceptedCount) + |taken.events| - 1
        && rejectedCount == old(rejectedCount) + 2 - |taken.events|
    {
      hide Ledger.LockFunds, OrderRepository.View, AccountService.View, AccountService.Valid, OrderRepository.Valid;
      ghost var repo0, funds0, queue0 := repo.View(), funds.View(), queue;
      var order := Record(p);
      var rejected := funds.LockFunds(p.account, p.id, p.symbol, p.side, p.qty, p.price);
      if rejected.Some? {
        Refuse(order, rejected.value);
      } else {
        Admit(order);
      }
      TakenIn(funds0, repo0, p, LockResult(funds.View(), rejected), repo.View());
    }

    method Record(p: Placement) returns (order: OrderRecord)
      requires Valid()
      modifies repo
      ensures Valid() && fresh(order) && repo.Repr == old(repo.Repr) + {order}
      ensures order.View() == NewOrder(p) && repo.View() == old(repo.View()).Add(NewOrder(p))
      ensures p.id in repo.orders && repo.orders[p.id] == order
      ensures funds.View() == old(funds.View())
    {
      order := new OrderRecord(p);
      repo.Add(order);
    }

    method Refuse(order: OrderRecord, reason: Reason)
      requires repo.Valid() && order.id in repo.orders && repo.orders[order.id] == order && order.status == Pending
      modifies order`status, this`queue, this`rejectedCount
      ensures repo.Valid() && repo.View() == old(repo.View()).Set(old(order.View()).(status := Rejected))
      ensures rejectedCount == old(rejectedCount) + 1
      ensures queue == old(queue) + [OrderRejected(order.id, reason)]
    {
      Move(order, Rejected);
      queue := queue + [OrderRejected(order.id, reason)];
      rejectedCount := rejectedCount + 1;
    }

    method Admit(order: OrderRecord)
      requires repo.Valid() && this !in repo.Repr && order.id in repo.orders && repo.orders[order.id] == order &&
        order.status == Pending
      modifies order`status, this`queue, this`acceptedCount
      ensures repo.Valid() && repo.View() == old(repo.View()).Set(old(order.View()).(status := Routed))
      ensures acceptedCount == old(acceptedCount) + 1
      ensures queue == old(queue) + [OrderAccepted(order.id), OrderRouted(order.id, order.symbol)]
    {
      hide OrderRepository.View, OrderRepository.Valid;
      ghost var r, o := repo.View(), order.View();
      Move(order, Accepted);
      queue := queue + [OrderAccepted(order.id)];
      acceptedCount := acceptedCount + 1;
      Move(order, Routed);
      queue := queue + [OrderRouted(order.id, order.symbol)];
      SetAgain(r, o, Accepted, Routed);
    }

    /** A move the state machine allows, seen in the repository. */
    method Move(order: OrderRecord, to: Status)
      requires repo.Valid() && order.id in repo.orders && repo.orders[order.id] == order &&
        to in Successors(order.status)
      modifies order`status
      ensures repo.Valid() && order.View() == old(order.View()).(status := to)
      ensures repo.View() == old(repo.View()).Set(old(order.View()).(status := to))
    {
      var error := order.Transition(to);
      assert error.None?;
      repo.OneOrderMoved(order.id);
    }

    /** Give back what the order holds and mark it; an order in a final state is left alone. */
    method CancelOrder(id: OrderId) returns (error: Option<Error>, canceled: bool)
      requires Valid()
      modifies this`queue, repo.Repr, funds.Repr
      ensures Valid() && repo.Repr == old(repo.Repr) && fresh(funds.Repr - old(funds.Repr))
      ensures var r := old(repo.View());
        if id !in r.orders then
          error == Some(OrderNotFound) && repo.View() == r && funds.View() == old(funds.View()) && queue == old(queue)
        else if !r.orders[id].IsCancelable() then
          error == None && repo.View() == r && funds.View() == old(funds.View()) &&
            queue == old(queue) + [CancelRejected(id)]
        else
          && funds.View() == Unlock(old(funds.View()), r.orders[id].account, id)
          && if r.orders[id].status == Pending then
               error == Some(InvalidOrderState) && repo.View() == r && queue == old(queue)
             else
               error == None && repo.View() == r.Set(r.orders[id].(status := Canceled)) &&
                 queue == old(queue) + [OrderCanceled(id)]
      ensures canceled <==> error.None? && old(repo.View()).orders[id].IsCancelable()
    {
      hide AccountService.View, AccountService.Valid, Unlock;
      if id !in repo.orders {
        return Some(OrderNotFound), false;
      }
      var order := repo.orders[id];
      if order.status !in {Pending, Accepted, Routed, PartiallyFilled} {
        queue := queue + [CancelRejected(id)];
        return None, false;
      }
      funds.UnlockFunds(order.account, id);
      error := CancelRecord(order);
      canceled := error.None?;
    }

    /** Mark an order canceled and report it, if the state machine lets it. */
    method CancelRecord(order: OrderRecord) returns (error: Option<Error>)
      requires repo.Valid() && this !in repo.Repr && order.id in repo.orders && repo.orders[order.id] == order
      modifies this`queue, order`status
      ensures repo.Valid()
      ensures if Canceled in Successors(old(order.status)) then
          && error == None && repo.View() == old(repo.View()).Set(old(order.View()).(status := Canceled))
          && queue == old(queue) + [OrderCanceled(order.id)]
        else
          error == Some(InvalidOrderState) && repo.View() == old(repo.View()) && queue == old(queue)
    {
      if Canceled !in Successors(order.status) {
        return Some(InvalidOrderState);
      }
      Move(order, Canceled);
      queue := queue + [OrderCanceled(order.id)];
      return None;
    }

    /** Count a trade's quantity on one of its orders and report it. */
    method FillOne(id: OrderId, qty: real) returns (error: Option<Error>)
      requires Valid()
      modifies this`queue, repo.Repr
      ensures Valid() && repo.Repr == old(repo.Repr)
      ensures error.None? ==>
        && OnFill(old(repo.View()), id, qty) == Done(repo.View())
        && queue == old(queue) + [FillEvent(repo.View().orders[id], qty)]
      ensures error.Some? ==>
        && OnFill(old(repo.View()), id, qty) == Raised(error.value)
        && repo.View() == AfterRefusal(old(repo.View()), id, qty) && queue == old(queue)
    {
      hide AccountService.View;
      if id !in repo.orders {
        return Some(OrderNotFound);
      }
      var order := repo.orders[id];
      error := order.Fill(qty);
      repo.OneOrderMoved(id);
      if error.None? {
        queue := queue + [OrderFilled(id, qty, order.filledQty, order.status)];
      }
    }

    /** An event seen before is ignored. */
    method OnTradeExecuted(event: EventId, t: Trade) returns (error: Option<Error>)
      requires Valid()
      modifies this`queue, this`processed, this`tradeCount, repo.Repr
      ensures Valid() && repo.Repr == old(repo.Repr) && processed == old(processed) + {event}
      ensures event in old(processed) ==>
        error.None? && repo.View() == old(repo.View()) && queue == old(queue) && tradeCount == old(tradeCount)
      ensures event !in old(processed) ==>
        tradeCount == old(tradeCount) + 1 && BothFilled(old(repo.View()), repo.View(), t, error, old(queue), queue)
    {
      hide AccountService.View;
      if event in processed {
        return None;
      }
      processed := processed + {event};
      tradeCount := tradeCount + 1;
      error := FillBoth(t);
    }

    /** The BUY order first, then the SELL order. */
    method FillBoth(t: Trade) returns (error: Option<Error>)
      requires Valid()
      modifies this`queue, repo.Repr
      ensures Valid() && repo.Repr == old(repo.Repr)
      ensures BothFilled(old(repo.View()), repo.View(), t, error, old(queue), queue)
    {
      hide OnFill;
      ghost var r0 := repo.View();
      error := FillOne(t.buyId, t.qty);
      if error.Some? {
        return;
      }
      FillKeepsKeys(r0, t.buyId, t.qty);
      ghost var r1 := repo.View();
      error := FillOne(t.sellId, t.qty);
      if error.None? { FillKeepsKeys(r1, t.sellId, t.qty); }
    }

    /** A fill against the market concerns one order. */
    method OnMarketFill(id: OrderId, qty: real) returns (error: Option<Error>)
      requires Valid()
      modifies this`queue, this`tradeCount, repo.Repr
      ensures Valid() && repo.Repr == old(repo.Repr)
      ensures tradeCount == old(tradeCount) + if error.None? then 1 else 0
      ensures error.None? ==>
        && OnFill(old(repo.View()), id, qty) == Done(repo.View())
        && queue == old(queue) + [FillEvent(repo.View().orders[id], qty)]
      ensures error.Some? ==>
        && OnFill(old(repo.View()), id, qty) == Raised(error.value)
        && repo.View() == AfterRefusal(old(repo.View()), id, qty) && queue == old(queue)
    {
      hide OrderRecord.View;
      error := FillOne(id, qty);
      if error.None? {
        tradeCount := tradeCount + 1;
      }
    }

    method DrainEvents() returns (events: seq<Event>)
      modifies this`queue
      ensures events == old(queue) && queue == []
    {
      events := queue;
      queue := [];
    }
  }

  lemma SetAgain(r: Repo, o: Order, s1: Status, s2: Status)
    ensures r.Set(o.(status := s1)).Set(o.(status := s2)) == r.Set(o.(status := s2))
  {
  }

  /** Recording an order and then moving it on is recording the moved order. */
  lemma TakenIn(l: Accounts, r: Repo, p: Placement, lock: LockResult, r': Repo)
    requires lock == Ledger.LockFunds(l, p.account, p.id, p.symbol, p.side, p.qty, p.price)
    requires r' == r.Add(NewOrder(p)).Set(NewOrder(p).(status := if lock.rejected.Some? then Rejected else Routed))
    ensures TakeIn(l, r, p).accounts == lock.accounts && TakeIn(l, r, p).repo == r'
  {
  }
}

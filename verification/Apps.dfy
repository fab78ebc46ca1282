/** The application object: it owns the parts, drains the OMS queue and keeps the log. */
module Apps {
  import opened Domain
  import opened Matching
  import opened Ledger
  import opened Orders
  import opened Exchange
  import opened Agreement
  import opened Runs
  import opened LogShape
  import opened Drains
  import opened AccountServices
  import opened OrderRecords
  import opened Matchers
  import opened OmsServices
  import opened Settling
  import opened Projection
  import opened ReplayRuns
  import opened Rebuild
  import opened BookRebuild
  import opened ColdStarts
  import opened Restarts
  import opened ExactLocks

  /** Commands the boundary lets through in a state: positive amounts, a fresh order id, a sane price. */
  predicate Admits(s: State, c: Command) {
    Positive(c) && Sane(c) && (c.Place? ==> c.placement.id !in s.repo.ids)
  }

  class App {
    const accounts: AccountService
    const repo: OrderRepository
    const matcher: Matcher
    const oms: OmsService
    var log: seq<Event>
    var coldStarted: bool
    var nextEvent: EventId

    constructor ()
      ensures Valid() && Idle() && View() == INITIAL && fresh(Repr()) && !coldStarted
    {
      hide AccountService.View, AccountService.Valid, OrderRepository.View, OrderRepository.Valid, Matcher.View,
        Matcher.Valid;
      var ledger := new AccountService();
      var orders := new OrderRepository();
      accounts, repo, log, coldStarted, nextEvent := ledger, orders, [], false, 0;
      matcher := new Matcher();
      oms := new OmsService(orders, ledger);
    }

    ghost function Repr(): set<object>
      reads this, accounts, repo, matcher
    {
      {this, oms} + accounts.Repr + repo.Repr + matcher.Repr
    }

    /** The parts share nothing but what the OMS is given to work on. */
    ghost predicate Valid()
      reads this, oms, accounts, repo, matcher, accounts.Repr, repo.Repr, matcher.Repr
    {
      && oms.repo == repo && oms.funds == accounts && oms.Valid() && matcher.Valid()
      && matcher.Repr !! accounts.Repr && matcher.Repr !! repo.Repr && oms !in matcher.Repr
      && this !in accounts.Repr && this !in repo.Repr && this !in matcher.Repr
      && forall e :: e in oms.processed ==> e < nextEvent
    }

    /** Between two commands no queue holds anything. */
    ghost predicate Idle()
      reads oms, matcher
    {
      oms.queue == [] && matcher.pending == []
    }

    ghost function View(): State
      requires Valid()
      reads this, oms, accounts, repo, matcher, accounts.Repr, repo.Repr, matcher.Repr
    {
      State(accounts.View(), repo.View(), matcher.View(), matcher.seen, log)
    }

    ghost function AtDesk(): Desk
      requires Valid()
      reads this, oms, accounts, repo, matcher, accounts.Repr, repo.Repr, matcher.Repr
    {
      Desk(accounts.View(), repo.View(), log, oms.queue)
    }

    ghost function AtShop(): Shop
      requires Valid()
      reads this, oms, accounts, repo, matcher, accounts.Repr, repo.Repr, matcher.Repr
    {
      Shop(View(), oms.queue)
    }

    /** An event id no event had before. */
    method NewEventId() returns (event: EventId)
      requires Valid()
      modifies this`nextEvent
      ensures event !in oms.processed && event == old(nextEvent) && nextEvent == event + 1
    {
      event := nextEvent;
      nextEvent := nextEvent + 1;
    }

    method Publish(e: Event)
      requires Valid()
      modifies this`log
      ensures Valid() && log == old(log) + [e]
      ensures View() == old(View()).(log := log)
    {
      hide AccountService.View;
      log := log + [e];
    }

    /** Publish a trade and count it on both orders. */
    method CountTrade(t: Trade) returns (error: Option<Error>)
      requires Valid()
      modifies this`log, this`nextEvent, oms, repo.Repr
      ensures Valid() && repo.Repr == old(repo.Repr) && unchanged(matcher) && matcher.View() == old(matcher.View())
      ensures accounts.View() == old(accounts.View()) && log == old(log) + [TradeExecuted(t)]
      ensures BothFilled(old(repo.View()), repo.View(), t, error, old(oms.queue), oms.queue)
    {
      hide BothFilled, AccountService.View, AccountService.Valid, OrderRepository.View, Matcher.View, Matcher.Valid;
      log := log + [TradeExecuted(t)];
      var event := NewEventId();
      error := oms.OnTradeExecuted(event, t);
    }

    /** Move cash and shares, and publish the settlement. */
    method PayTrade(t: Trade) returns (error: Option<Error>)
      requires Valid() && t.buyId in repo.View().orders && t.sellId in repo.View().orders
      modifies this`log, accounts.Repr
      ensures Valid() && fresh(accounts.Repr - old(accounts.Repr)) && unchanged(matcher, oms, repo)
      ensures matcher.View() == old(matcher.View()) && repo.View() == old(repo.View())
      ensures var r := repo.View();
        var buyer, seller := r.orders[t.buyId].account, r.orders[t.sellId].account;
        && error == (if Settleable(old(accounts.View()), buyer, seller, t.symbol, t.qty) then None
                     else Some(DivisionByZero))
        && (error.None? ==>
              && accounts.View()
                == Settle(old(accounts.View()), buyer, seller, t.buyId, t.sellId, t.symbol, t.price, t.qty)
              && log == old(log) + [SettlementOf(r, t)])
        && (error.Some? ==>
              && accounts.View() == Served(old(accounts.View()), buyer, seller, t.symbol, t.price, t.qty)
              && log == old(log))
    {
      hide Settle, Settleable, Served, AccountService.View, AccountService.Valid, OrderRepository.View,
        OrderRepository.Valid, Matcher.View, Matcher.Valid;
      var buyer := repo.AccountOf(t.buyId);
      var seller := repo.AccountOf(t.sellId);
      error := accounts.SettleTrade(buyer, seller, t.buyId, t.sellId, t.symbol, t.price, t.qty);
      if error.None? {
        log := log + [TradeSettlement(buyer, seller, t.buyId, t.sellId, t.symbol, t.price, t.qty)];
      }
    }

    /**
     * One trade: publish it, count it on both orders, move cash and shares, publish the settlement. Where that raises,
     * what was done up to there stays.
     */
    method SettleOne(t: Trade) returns (error: Option<Error>)
      requires Valid()
      modifies this`log, this`nextEvent, oms, repo.Repr, accounts.Repr
      ensures Valid() && repo.Repr == old(repo.Repr) && fresh(accounts.Repr - old(accounts.Repr))
      ensures error.None? ==> ApplyTrade(old(AtDesk()), t) == Done(AtDesk())
      ensures error.Some? ==>
        ApplyTrade(old(AtDesk()), t) == Raised(error.value) && Interrupted(old(AtDesk()), t, error.value, AtDesk())
      ensures View().books == old(View()).books && View().seen == old(View()).seen && unchanged(matcher)
    {
      hide BothFilled, Interrupted, Settle, Settleable, Served, ApplyTrade, AccountService.View, AccountService.Valid,
        OrderRepository.View, OrderRepository.Valid, Matcher.View, Matcher.Valid;
      ghost var d := AtDesk();
      error := CountTrade(t);
      if error.Some? {
        TradeStops(d, t, AtDesk(), error.value);
        return;
      }
      ghost var d1 := AtDesk();
      BothKnown(d, t, d1);
      error := PayTrade(t);
      TradeSteps(d, t, d1, error, AtDesk());
    }

    /** Settle trades in their order. */
    method SettleAll(trades: seq<Trade>) returns (error: Option<Error>)
      requires Valid()
      modifies this`log, this`nextEvent, oms, repo.Repr, accounts.Repr
      ensures Valid() && repo.Repr == old(repo.Repr) && fresh(accounts.Repr - old(accounts.Repr))
      ensures error.None? ==> ApplyTrades(old(AtDesk()), trades) == Done(AtDesk())
      ensures error.Some? ==>
        ApplyTrades(old(AtDesk()), trades) == Raised(error.value) &&
          Stopped(old(AtDesk()), trades, error.value, AtDesk())
      ensures View().books == old(View()).books && View().seen == old(View()).seen && unchanged(matcher)
    {
      hide OmsService.Valid, AtDesk, ApplyTrade;
      for i := 0 to |trades|
        invariant Valid() && repo.Repr == old(repo.Repr) && fresh(accounts.Repr - old(accounts.Repr))
        invariant ApplyTrades(old(AtDesk()), trades) == ApplyTrades(AtDesk(), trades[i..])
        invariant ApplyTrades(old(AtDesk()), trades[..i]) == Done(AtDesk())
        invariant View().books == old(View()).books && View().seen == old(View()).seen && unchanged(matcher)
      {
        ghost var d := AtDesk();
        error := SettleOne(trades[i]);
        assert trades[i..][0] == trades[i] && trades[i..][1..] == trades[i + 1..];
        OneMoreApplied(old(AtDesk()), trades, i);
        if error.Some? {
          return;
        }
      }
      error := None;
    }

    method PublishAll(events: seq<Event>)
      requires Valid()
      modifies this`log
      ensures Valid() && View() == old(View()).(log := old(log) + events)
    {
      hide AccountService.View;
      for i := 0 to |events|
        invariant log == old(log) + events[..i]
      {
        log := log + [events[i]];
      }
    }

    /** Submit what remains of an order at its effective price. */
    method SubmitToMatcher(id: OrderId) returns (trades: seq<Trade>)
      requires Valid() && id in View().repo.orders
      modifies matcher.Repr
      ensures Valid() && fresh(matcher.Repr - old(matcher.Repr)) && AtDesk() == old(AtDesk())
      ensures var o := old(View()).repo.orders[id];
        var sub := SubmitOrder(old(View()).books, old(View()).seen, o.symbol, o.side, Entry(o));
        && trades == sub.trades && View().books == sub.books && View().seen == sub.seen
        && matcher.pending == old(matcher.pending) + sub.remain
    {
      hide SubmitOrder, AccountService.View, AccountService.Valid, OrderRepository.Valid;
      var order := repo.orders[id];
      var price := 0.0;
      if order.otype == Market {
        price := if order.side == Buy then 999999999.0 else 0.0;
      } else if order.price.Some? {
        price := order.price.value;
      }
      trades := matcher.SubmitOrder(order.id, order.account, order.symbol, order.side, price,
                                    order.qty - order.filledQty, order.createdAt);
    }

    /** Hand an order to the matching engine and settle what comes of it. */
    method RouteToMe(id: OrderId) returns (error: Option<Error>)
      requires Valid() && matcher.pending == []
      modifies Repr()
      ensures Valid() && fresh(Repr() - old(Repr()))
      ensures error.None? ==> matcher.pending == [] && RouteToMatcher(old(AtShop()), id) == Done(AtShop())
      ensures error.Some? ==>
        RouteToMatcher(old(AtShop()), id) == Raised(error.value) &&
          RouteStopped(old(AtShop()), id, error.value, AtShop())
    {
      if id !in repo.orders {
        return Some(OrderNotFound);
      }
      error := RouteKnown(id);
    }

    method RouteKnown(id: OrderId) returns (error: Option<Error>)
      requires Valid() && matcher.pending == [] && id in View().repo.orders
      modifies Repr()
      ensures Valid() && fresh(Repr() - old(Repr()))
      ensures error.None? ==> matcher.pending == [] && RouteToMatcher(old(AtShop()), id) == Done(AtShop())
      ensures error.Some? ==>
        RouteToMatcher(old(AtShop()), id) == Raised(error.value) &&
          RouteStopped(old(AtShop()), id, error.value, AtShop())
    {
      hide SubmitOrder, ApplyTrades, Entry, RouteToMatcher, Matcher.View, Matcher.Valid, AccountService.View,
        AccountService.Valid, OrderRepository.View, OrderRepository.Valid;
      ghost var sh := AtShop();
      var trades := SubmitToMatcher(id);
      error := SettleAll(trades);
      if error.Some? {
        RouteRaises(sh, id, error.value);
        return;
      }
      ghost var d := AtDesk();
      var remain := matcher.DrainRemainEvents();
      assert forall es: seq<Event> :: [] + es == es;
      PublishAll(remain);
      RouteSteps(sh, id, d);
    }

    /** Take a canceled order off its book. */
    method CancelOnBook(id: OrderId)
      requires Valid() && id in View().repo.orders
      modifies matcher.Repr
      ensures Valid() && fresh(matcher.Repr - old(matcher.Repr))
      ensures matcher.pending == old(matcher.pending) && oms.queue == old(oms.queue)
      ensures var s := old(View());
        var o := s.repo.orders[id];
        View() == s.(books := s.books[o.symbol := RemoveFromBook(BookOf(s.books, o.symbol), id)])
    {
      hide RemoveFromBook, AccountService.View, AccountService.Valid, OrderRepository.Valid;
      var order := repo.orders[id];
      var _ := matcher.CancelOrder(order.symbol, id);
    }

    /** Publish an event and do what it asks for. */
    method HandleEvent(e: Event) returns (error: Option<Error>)
      requires Valid() && matcher.pending == []
      modifies Repr()
      ensures Valid() && fresh(Repr() - old(Repr()))
      ensures error.None? ==> matcher.pending == [] && Handle(old(AtShop()), e) == Done(AtShop())
      ensures error.Some? ==>
        && Handle(old(AtShop()), e) == Raised(error.value) && e.OrderRouted?
        && RouteStopped(Published(old(AtShop()), e), e.id, error.value, AtShop())
    {
      hide RouteToMatcher, RemoveFromBook, SubmitOrder, Entry, Matcher.View, Matcher.Valid, AccountService.View,
        AccountService.Valid, OrderRepository.View, OrderRepository.Valid;
      Publish(e);
      error := None;
      if e.OrderRouted? {
        error := RouteToMe(e.id);
      } else if e.OrderCanceled? {
        var known := repo.Knows(e.id);
        if known {
          CancelOnBook(e.id);
        }
      }
    }

    /** Drain the OMS queue; then publish the fills that arrived behind it. */
    method ProcessOmsEvents() returns (error: Option<Error>)
      requires Valid() && matcher.pending == []
      modifies Repr()
      ensures Valid() && fresh(Repr() - old(Repr()))
      ensures error.None? ==> Idle() && Drain(old(View()), old(oms.queue)) == Done(View())
      ensures error.Some? ==>
        && Drain(old(View()), old(oms.queue)) == Raised(error.value)
        && DrainStopped(Shop(old(View()), []), old(oms.queue), error.value, AtShop())
    {
      hide HandleAll, DrainStopped, Matcher.View, Matcher.Valid, AccountService.View,
        AccountService.Valid, OrderRepository.View, OrderRepository.Valid;
      var events := oms.DrainEvents();
      error := HandleEach(events);
      if error.Some? {
        return;
      }
      var leftover := oms.DrainEvents();
      PublishAll(leftover);
    }

    /** Handle events in their order. */
    method HandleEach(events: seq<Event>) returns (error: Option<Error>)
      requires Valid() && matcher.pending == []
      modifies Repr()
      ensures Valid() && fresh(Repr() - old(Repr()))
      ensures error.None? ==> matcher.pending == [] && HandleAll(old(AtShop()), events) == Done(AtShop())
      ensures error.Some? ==>
        && HandleAll(old(AtShop()), events) == Raised(error.value)
        && DrainStopped(old(AtShop()), events, error.value, AtShop())
    {
      hide Handle, AtShop, OmsService.Valid, RouteStopped, Matcher.View, Matcher.Valid, AccountService.View,
        AccountService.Valid, OrderRepository.View, OrderRepository.Valid;
      for i := 0 to |events|
        invariant Valid() && fresh(Repr() - old(Repr())) && matcher.pending == []
        invariant HandleAll(old(AtShop()), events) == HandleAll(AtShop(), events[i..])
        invariant HandleAll(old(AtShop()), events[..i]) == Done(AtShop())
      {
        OneMoreHandled(old(AtShop()), events, i);
        assert events[i..][0] == events[i] && events[i..][1..] == events[i + 1..];
        error := HandleEvent(events[i]);
        if error.Some? {
          return;
        }
      }
      error := None;
    }

    // ---------- the commands of the REST boundary, each with its drain ----------

    method Place(p: Placement) returns (error: Option<Error>)
      requires Valid() && Idle()
      modifies Repr()
      ensures Valid() && fresh(Repr() - old(Repr()))
      ensures error.None? ==> Step(old(View()), Command.Place(p)) == Done(View()) && Idle()
      ensures error.Some? ==>
        && Step(old(View()), Command.Place(p)) == Raised(error.value)
        && var s := old(View());
        var taken := TakeIn(s.accounts, s.repo, p);
        var recorded := s.(accounts := taken.accounts, repo := taken.repo, log := s.log + [OrderPlaced(p)]);
        DrainStopped(Shop(recorded, []), taken.events, error.value, AtShop())
      ensures Inv(old(View())) && Admits(old(View()), Command.Place(p)) ==> error.None? && Inv(View())
    {
      hide Drain, PlaceOrder, Step, Inv, Admits, TakeIn, Matcher.View, Matcher.Valid, AccountService.View,
        AccountService.Valid, OrderRepository.View, OrderRepository.Valid;
      ghost var s := View();
      Publish(OrderPlaced(p));
      TakeOrderIn(p);
      error := ProcessOmsEvents();
      PlaceIsDrain(s, p);
      StepOfPlace(s, p);
      CommandKeepsInv(s, Command.Place(p));
    }

    method TakeOrderIn(p: Placement)
      requires Valid() && Idle()
      modifies Repr()
      ensures Valid() && fresh(Repr() - old(Repr())) && matcher.pending == []
      ensures var s := old(View());
        var taken := TakeIn(s.accounts, s.repo, p);
        View() == s.(accounts := taken.accounts, repo := taken.repo) && oms.queue == taken.events
    {
      hide TakeIn, Shortage, Matcher.View, Matcher.Valid, AccountService.View, AccountService.Valid,
        OrderRepository.View, OrderRepository.Valid;
      var event := NewEventId();
      oms.PlaceOrder(event, p);
      assert forall es: seq<Event> :: [] + es == es;
    }

    /** An unknown id is answered by an error, an order in a final state by a refusal. */
    /** The answer has status 400 whenever the order is not canceled: the handler catches its own 403 and 409. */
    method Cancel(id: OrderId, caller: AccountId, isAdmin: bool) returns (error: Option<Error>, status: nat)
      requires Valid() && Idle()
      modifies Repr()
      ensures Valid() && fresh(Repr() - old(Repr())) && Idle()
      ensures var s := old(View());
        if id !in s.repo.orders then error == Some(OrderNotFound) && status == 400 && View() == s
        else if caller != s.repo.orders[id].account && !isAdmin then
          error == Some(NotYourOrder) && status == 400 && View() == s
        else if error.Some? then
          && error == Some(InvalidOrderState) && status == 400
          && CancelOrder(s, id) == Raised(InvalidOrderState) && View() == Released(s, id)
        else
          && Step(s, Command.Cancel(id)) == Done(View())
          && status == if s.repo.orders[id].status in {Pending, Accepted, Routed, PartiallyFilled} then 200 else 400
      ensures Inv(old(View())) ==> Inv(View())
      ensures var orders := old(View()).repo.orders;
        Inv(old(View())) && id in orders && (caller == orders[id].account || isAdmin) ==> error.None?
    {
      hide CancelOrder, Step, Inv, Matcher.View, Matcher.Valid, AccountService.View, AccountService.Valid,
        OrderRepository.View, OrderRepository.Valid;
      var known := repo.Knows(id);
      if !known {
        return Some(OrderNotFound), 400;
      }
      var owner := repo.AccountOf(id);
      if owner != caller && !isAdmin {
        return Some(NotYourOrder), 400;
      }
      var canceled;
      error, canceled := CancelKnown(id);
      status := if canceled then 200 else 400;
    }

    method CancelKnown(id: OrderId) returns (error: Option<Error>, canceled: bool)
      requires Valid() && Idle() && id in View().repo.orders
      modifies Repr()
      ensures Valid() && fresh(Repr() - old(Repr()))
      ensures var s := old(View());
        if error.Some? then
          && CancelOrder(s, id) == Raised(InvalidOrderState) && error == Some(InvalidOrderState)
          && View() == Released(s, id) && Idle()
        else Step(s, Command.Cancel(id)) == Done(View()) && Idle()
      ensures canceled <==> error.None? && old(View()).repo.orders[id].IsCancelable()
      ensures Inv(old(View())) ==> error.None? && Inv(View())
    {
      hide Drain, DrainStopped, CancelOrder, Step, Inv, Unlock, Matcher.View, Matcher.Valid, AccountService.View,
        AccountService.Valid, OrderRepository.View, OrderRepository.Valid;
      ghost var s := View();
      repo.OrdersUnderTheirIds();
      CancelIsReady(s, id);
      assert forall es: seq<Event> :: [] + es == es;
      error, canceled := oms.CancelOrder(id);
      if error.Some? {
        return;
      }
      error := ProcessOmsEvents();
      canceled := canceled && error.None?;
    }

    method CashIn(a: AccountId, amount: real)
      requires Valid() && Idle()
      modifies Repr()
      ensures Valid() && fresh(Repr() - old(Repr())) && Idle()
      ensures Step(old(View()), Command.CashIn(a, amount)) == Done(View())
      ensures Inv(old(View())) && Admits(old(View()), Command.CashIn(a, amount)) ==> Inv(View())
    {
      hide Deposit, Inv, Admits, Matcher.View, Matcher.Valid, AccountService.View, AccountService.Valid,
        OrderRepository.View, OrderRepository.Valid;
      ghost var s := View();
      Publish(AccountUpdated(a, amount, "", 0.0));
      accounts.DepositTo(a, amount);
      CommandKeepsInv(s, Command.CashIn(a, amount));
    }

    /** A withdrawal the account cannot cover is refused before anything is published. */
    method CashOut(a: AccountId, amount: real) returns (refused: bool)
      requires Valid() && Idle()
      modifies Repr()
      ensures Valid() && fresh(Repr() - old(Repr())) && Idle()
      ensures Step(old(View()), Command.CashOut(a, amount)) == Done(View())
      ensures Inv(old(View())) && Admits(old(View()), Command.CashOut(a, amount)) ==> Inv(View())
      ensures refused <==> old(View()).accounts.Get(a).cashAvail < amount
    {
      hide Step, Withdraw, Inv, Admits, Matcher.View, Matcher.Valid, AccountService.View, AccountService.Valid,
        OrderRepository.View, OrderRepository.Valid;
      ghost var s := View();
      CommandKeepsInv(s, Command.CashOut(a, amount));
      CashOutSteps(s, a, amount);
      refused := accounts.Lacks(a, amount);
      if refused {
        return;
      }
      Publish(AccountUpdated(a, -amount, "", 0.0));
      var error := accounts.WithdrawFrom(a, amount);
      assert error.None?;
    }

    method SharesIn(a: AccountId, sym: Symbol, qty: real)
      requires Valid() && Idle()
      modifies Repr()
      ensures Valid() && fresh(Repr() - old(Repr())) && Idle()
      ensures Step(old(View()), Command.SharesIn(a, sym, qty)) == Done(View())
      ensures Inv(old(View())) && Admits(old(View()), Command.SharesIn(a, sym, qty)) ==> Inv(View())
    {
      hide Seed, Inv, Admits, Matcher.View, Matcher.Valid, AccountService.View, AccountService.Valid,
        OrderRepository.View, OrderRepository.Valid;
      ghost var s := View();
      Publish(AccountUpdated(a, 0.0, sym, qty));
      accounts.SeedShares(a, sym, qty);
      CommandKeepsInv(s, Command.SharesIn(a, sym, qty));
    }

    // ---------- restart ----------

    /** The accounts to start from. */
    method LoadBase(snapshot: Option<seq<SavedAccount>>)
      requires Valid() && View().accounts == NO_ACCOUNTS
      modifies accounts.Repr
      ensures Valid() && fresh(accounts.Repr - old(accounts.Repr)) && AccountsOk(View().accounts)
      ensures var base := if snapshot.Some? then ReadInto(NO_ACCOUNTS, snapshot.value) else NO_ACCOUNTS;
        View() == old(View()).(accounts := base)
    {
      hide ReadInto, AccountsOk, Matcher.View, Matcher.Valid, AccountService.View, AccountService.Valid,
        OrderRepository.View, OrderRepository.Valid;
      NoAccountsTwins();
      if snapshot.Some? {
        RestoreSnapshot(accounts, snapshot.value);
        LoadedOk(snapshot.value);
      }
    }

    /**
     * Rebuild everything, once, from a snapshot if there is one and the events since; an event that cannot be
     * replayed stops it.
     */
    method ColdStart(snapshot: Option<seq<SavedAccount>>, events: seq<Event>) returns (error: Option<Error>)
      requires Valid() && Idle() && (!coldStarted ==> View() == INITIAL)
      modifies Repr()
      ensures Valid() && fresh(Repr() - old(Repr()))
      ensures old(coldStarted) ==> error.None? && View() == old(View()) && Idle()
      ensures var base := if snapshot.Some? then ReadInto(NO_ACCOUNTS, snapshot.value) else NO_ACCOUNTS;
        && (!old(coldStarted) && error.None? ==>
              Replay(base, events).Done? && View() == RestartedOn(base, events) && Idle() && coldStarted)
        && (error.Some? ==>
              && Replay(base, events) == Raised(error.value) && ReplayStopped(base, events, View().accounts)
              && View() == INITIAL.(accounts := View().accounts, log := events) && !coldStarted)
    {
      hide Projection.Replay, RestoreOrders, RebuildBooks, PutBackIds, Scan, ReadInto, ReplayStopped, Matcher.View,
        Matcher.Valid, AccountService.View, AccountService.Valid, OrderRepository.View, OrderRepository.Valid;
      error := None;
      if coldStarted {
        return;
      }
      log := events;
      LoadBase(snapshot);
      error := ReplayAccounts(events);
      if error.Some? {
        return;
      }
      RebuildOrders(events);
      coldStarted := true;
    }

    /** The accounts, event by event. */
    method ReplayAccounts(events: seq<Event>) returns (error: Option<Error>)
      requires Valid() && AccountsOk(View().accounts)
      modifies accounts.Repr
      ensures Valid() && fresh(accounts.Repr - old(accounts.Repr))
      ensures View() == old(View()).(accounts := View().accounts)
      ensures error.None? ==> Replay(old(View()).accounts, events) == Done(View().accounts)
      ensures error.Some? ==>
        && Replay(old(View()).accounts, events) == Raised(error.value)
        && ReplayStopped(old(View()).accounts, events, View().accounts)
    {
      hide Projection.Replay, ReplayStopped, AccountsOk, Matcher.View, Matcher.Valid, AccountService.View,
        AccountService.Valid, OrderRepository.View, OrderRepository.Valid;
      var projection := new AccountProjection(accounts);
      error := projection.Replay(events);
    }

    /** The order repository first, then the order books. */
    method RebuildOrders(events: seq<Event>)
      requires Valid() && Idle() && View() == INITIAL.(accounts := View().accounts, log := log)
      modifies repo.Repr, matcher.Repr
      ensures Valid() && Idle() && fresh(repo.Repr - old(repo.Repr)) && fresh(matcher.Repr - old(matcher.Repr))
      ensures var f := Scan(NO_FINDINGS, events);
        View() == old(View()).(repo := RestoreOrders(Restoring(Repo([], map[]), 0), events).repo,
                               books := RebuildBooks(events), seen := PutBackIds(f, f.ids))
    {
      hide RestoreOrders, RestoreBooks, PutBackIds, Scan, Matcher.View, Matcher.Valid, AccountService.View,
        AccountService.Valid, OrderRepository.View, OrderRepository.Valid;
      var skipped := RestoreRepository(repo, events);
      RebuildOrderBook(matcher, events);
    }
  }

  /** Accounts read from a snapshot are listed once each. */
  lemma {:induction false} LoadedOk(saved: seq<SavedAccount>)
    ensures AccountsOk(ReadInto(NO_ACCOUNTS, saved))
  {
    if saved != [] {
      LoadedOk(saved[..|saved| - 1]);
      var l, last := ReadInto(NO_ACCOUNTS, saved[..|saved| - 1]), saved[|saved| - 1];
      PutKeeps(l, last.id, TakeOver(l.Get(last.id), last));
    }
  }

  /** The steps of one trade, when the OMS accepts both fills. */
  /**
   * What a trade that raises leaves behind: it is published; one fill may have been counted, and the one that was
   * refused is; or both were, and cash and shares have moved, but neither the seller's cost basis nor the locks were
   * reduced.
   */
  predicate Interrupted(d: Desk, t: Trade, e: Error, d': Desk) {
    && d'.log == d.log + [TradeExecuted(t)]
    && ((d'.accounts == d.accounts && BothFilled(d.repo, d'.repo, t, Some(e), d.fills, d'.fills))
        || (&& e == DivisionByZero && BothFilled(d.repo, d'.repo, t, None, d.fills, d'.fills)
            && t.buyId in d'.repo.orders && t.sellId in d'.repo.orders
            && var buyer, seller := d'.repo.orders[t.buyId].account, d'.repo.orders[t.sellId].account;
            d'.accounts == Served(d.accounts, buyer, seller, t.symbol, t.price, t.qty)))
  }

  /** What a run of trades that raises leaves behind: all before one, and that one interrupted. */
  ghost predicate Stopped(d: Desk, ts: seq<Trade>, e: Error, d': Desk) {
    exists k, d1 :: 0 <= k < |ts| && ApplyTrades(d, ts[..k]) == Done(d1) && Interrupted(d1, ts[k], e, d')
  }

  lemma {:induction false} OneMoreApplied(d: Desk, ts: seq<Trade>, k: nat)
    requires k < |ts| && ApplyTrades(d, ts[..k]).Done?
    ensures ApplyTrades(d, ts[..k + 1]) == ApplyTrade(ApplyTrades(d, ts[..k]).value, ts[k])
  {
    assert ts[..k + 1] == ts[..k] + [ts[k]];
    AppliedAppend(d, ts[..k], ts[k]);
  }

  lemma {:induction false} AppliedAppend(d: Desk, ts: seq<Trade>, t: Trade)
    requires ApplyTrades(d, ts).Done?
    ensures ApplyTrades(d, ts + [t]) == ApplyTrade(ApplyTrades(d, ts).value, t)
    decreases |ts|
  {
    hide ApplyTrade;
    if ts == [] {
      assert ([] + [t])[1..] == [];
    } else {
      assert (ts + [t])[0] == ts[0] && (ts + [t])[1..] == ts[1..] + [t];
      AppliedAppend(ApplyTrade(d, ts[0]).value, ts[1..], t);
    }
  }

  /** What a routing that raises leaves behind: the order is on the book or traded there, and its trades stopped. */
  ghost predicate RouteStopped(s: Shop, id: OrderId, e: Error, s': Shop) {
    if id !in s.state.repo.orders then s' == s
    else
      var o := s.state.repo.orders[id];
      var sub := SubmitOrder(s.state.books, s.state.seen, o.symbol, o.side, Entry(o));
      && Stopped(DeskOf(s), sub.trades, e, DeskOf(s'))
      && s'.state.books == sub.books && s'.state.seen == sub.seen
  }

  /** What a drain that raises leaves behind: all events before a routing handled, and that routing stopped. */
  ghost predicate DrainStopped(s: Shop, es: seq<Event>, e: Error, s': Shop) {
    exists k, s1 :: 0 <= k < |es| && es[k].OrderRouted? && HandleAll(s, es[..k]) == Done(s1)
      && RouteStopped(Published(s1, es[k]), es[k].id, e, s')
  }

  function Published(s: Shop, e: Event): Shop { s.(state := s.state.(log := s.state.log + [e])) }

  lemma {:induction false} OneMoreHandled(s: Shop, es: seq<Event>, k: nat)
    requires k < |es| && HandleAll(s, es[..k]).Done?
    ensures HandleAll(s, es[..k + 1]) == Handle(HandleAll(s, es[..k]).value, es[k])
  {
    assert es[..k + 1] == es[..k] + [es[k]];
    HandledAppend(s, es[..k], es[k]);
  }

  lemma {:induction false} HandledAppend(s: Shop, es: seq<Event>, e: Event)
    requires HandleAll(s, es).Done?
    ensures HandleAll(s, es + [e]) == Handle(HandleAll(s, es).value, e)
    decreases |es|
  {
    hide Handle;
    if es == [] {
      assert ([] + [e])[1..] == [];
    } else {
      assert (es + [e])[0] == es[0] && (es + [e])[1..] == es[1..] + [e];
      HandledAppend(Handle(s, es[0]).value, es[1..], e);
    }
  }

  /** A withdrawal that first made sure of the account. */
  lemma CashOutSteps(s: State, a: AccountId, amount: real)
    ensures var l := s.accounts.Put(a, s.accounts.Get(a));
      if s.accounts.Get(a).cashAvail < amount then Step(s, Command.CashOut(a, amount)) == Done(s.(accounts := l))
      else
        && Withdraw(l, a, amount).Done?
        && Step(s, Command.CashOut(a, amount)) == Done(s.(accounts := Withdraw(l, a, amount).value,
                                                          log := s.log + [AccountUpdated(a, -amount, "", 0.0)]))
  {
    hide PlaceOrder, CancelOrder;
    TouchThenPut(s.accounts, a, s.accounts.Get(a).(cashAvail := s.accounts.Get(a).cashAvail - amount));
  }

  /** Where the OMS refuses a fill, the trade is not carried out. */
  lemma TradeStops(d: Desk, t: Trade, d': Desk, e: Error)
    requires BothFilled(d.repo, d'.repo, t, Some(e), d.fills, d'.fills)
    requires d'.accounts == d.accounts && d'.log == d.log + [TradeExecuted(t)]
    ensures ApplyTrade(d, t) == Raised(e) && Interrupted(d, t, e, d')
  {
    hide OnFill, TrySettle;
  }

  lemma BothKnown(d: Desk, t: Trade, d': Desk)
    requires BothFilled(d.repo, d'.repo, t, None, d.fills, d'.fills)
    ensures t.buyId in d'.repo.orders && t.sellId in d'.repo.orders
  {
    hide FillOrder, AfterRefusal;
  }

  /** Where it refuses none, the settlement decides. */
  lemma TradeSteps(d: Desk, t: Trade, d1: Desk, error: Option<Error>, d': Desk)
    requires BothFilled(d.repo, d1.repo, t, None, d.fills, d1.fills)
    requires d1.accounts == d.accounts && d1.log == d.log + [TradeExecuted(t)]
    requires t.buyId in d1.repo.orders && t.sellId in d1.repo.orders
    requires var buyer, seller := d1.repo.orders[t.buyId].account, d1.repo.orders[t.sellId].account;
      && d'.repo == d1.repo && d'.fills == d1.fills
      && error == (if Settleable(d.accounts, buyer, seller, t.symbol, t.qty) then None else Some(DivisionByZero))
      && (error.None? ==>
            && d'.accounts == Settle(d.accounts, buyer, seller, t.buyId, t.sellId, t.symbol, t.price, t.qty)
            && d'.log == d1.log + [SettlementOf(d1.repo, t)])
      && (error.Some? ==>
            && d'.accounts == Served(d.accounts, buyer, seller, t.symbol, t.price, t.qty) && d'.log == d1.log)
    ensures error.None? ==> ApplyTrade(d, t) == Done(d')
    ensures error.Some? ==> ApplyTrade(d, t) == Raised(error.value) && Interrupted(d, t, error.value, d')
  {
    hide OnFill, Settle, Settleable, Served;
    assert d.log + [TradeExecuted(t)] + [SettlementOf(d1.repo, t)]
      == d.log + [TradeExecuted(t), SettlementOf(d1.repo, t)];
  }

  /** In an agreeing state no admitted command raises, and the state agrees after it. */
  lemma CommandKeepsInv(s: State, c: Command)
    ensures Inv(s) && Admits(s, c) ==> Step(s, c).Done? && Inv(Step(s, c).value)
  {
    hide Inv, Step;
    if Inv(s) && Admits(s, c) { StepKeepsInv(s, c); }
  }

  /** The lock of the order is given back, and that is all. */
  function Released(s: State, id: OrderId): State
    requires id in s.repo.orders
  {
    s.(accounts := Unlock(s.accounts, s.repo.orders[id].account, id))
  }

  lemma CancelIsReady(s: State, id: OrderId)
    requires forall x :: x in s.repo.orders ==> s.repo.orders[x].id == x
    ensures Inv(s) ==> CancelOrder(s, id).Done? && Inv(CancelOrder(s, id).value)
    ensures Step(s, Cancel(id)) == CancelOrder(s, id) && (id !in s.repo.orders ==> CancelOrder(s, id) == Done(s))
    ensures CancelOrder(s, id).Raised? ==> id in s.repo.orders && s.repo.orders[id].status == Pending
    ensures id in s.repo.orders ==>
      var o := s.repo.orders[id];
      CancelOrder(s, id) ==
        if o.status == Pending then Raised(InvalidOrderState)
        else if o.IsCancelable()
        then Drain(s.(accounts := Unlock(s.accounts, o.account, id), repo := s.repo.Set(o.(status := Canceled))),
                   [OrderCanceled(id)])
        else Drain(s, [CancelRejected(id)])
  {
    if Inv(s) { StepKeepsInv(s, Cancel(id)); }
    if id in s.repo.orders && s.repo.orders[id].status != Pending { CancelIsDrain(s, id); }
  }

  /** Routing, when all its trades are settled. */
  lemma RouteSteps(sh: Shop, id: OrderId, d: Desk)
    requires id in sh.state.repo.orders
    requires var o := sh.state.repo.orders[id];
      ApplyTrades(DeskOf(sh), SubmitOrder(sh.state.books, sh.state.seen, o.symbol, o.side, Entry(o)).trades) == Done(d)
    ensures var o := sh.state.repo.orders[id];
      var sub := SubmitOrder(sh.state.books, sh.state.seen, o.symbol, o.side, Entry(o));
      RouteToMatcher(sh, id) == Done(Shop(State(d.accounts, d.repo, sub.books, sub.seen, d.log + sub.remain), d.fills))
  {
    hide SubmitOrder, ApplyTrades, Entry;
  }

  lemma RouteRaises(sh: Shop, id: OrderId, e: Error)
    requires id in sh.state.repo.orders
    requires var o := sh.state.repo.orders[id];
      ApplyTrades(DeskOf(sh), SubmitOrder(sh.state.books, sh.state.seen, o.symbol, o.side, Entry(o)).trades)
        == Raised(e)
    ensures RouteToMatcher(sh, id) == Raised(e)
  {
    hide SubmitOrder, ApplyTrades, Entry;
  }
}

/** The application object in order-against-market mode: fills on arrival and on every quote. */
module MarketApps {
  import opened Domain
  import opened Matching
  import opened Ledger
  import opened Orders
  import opened Exchange
  import opened AccountServices
  import opened OrderRecords
  import opened OmsServices
  import opened MarketMode
  import opened MarketRuns

  /** A routed order meets the last quote of its symbol, if there is one. */
  function RouteToMarket(m: Venue, id: OrderId): Outcome<Venue> {
    if id !in m.repo.orders then Raised(OrderNotFound)
    else
      var sym := m.repo.orders[id].symbol;
      if sym in m.quotes then TryFill(m, id, m.quotes[sym]) else Done(m)
  }

  /** Publish an event and route what is to be routed; nothing ever has to be taken off a book. */
  function HandleMarket(m: Venue, e: Event): Outcome<Venue> {
    var m1 := m.(log := m.log + [e]);
    if e.OrderRouted? then RouteToMarket(m1, e.id) else Done(m1)
  }

  function DrainMarket(m: Venue, es: seq<Event>): Outcome<Venue>
    decreases |es|
  {
    if es == [] then Done(m)
    else
      match HandleMarket(m, es[0])
      case Raised(e) => Raised(e)
      case Done(m1) => DrainMarket(m1, es[1..])
  }

  lemma DrainOne(m: Venue, e: Event)
    ensures DrainMarket(m, [e]) == HandleMarket(m, e)
  {
    hide HandleMarket;
    assert [e][1..] == [];
  }

  function MarketIntake(m: Venue, p: Placement): Venue {
    var taken := TakeIn(m.accounts, m.repo, p);
    m.(accounts := taken.accounts, repo := taken.repo, log := m.log + [OrderPlaced(p)])
  }

  /** Taking an order in and draining the queue is the placing step. */
  lemma PlaceDrains(m: Venue, p: Placement)
    ensures MarketStep(m, User(Place(p))) == DrainMarket(MarketIntake(m, p), TakeIn(m.accounts, m.repo, p).events)
  {
    hide DrainMarket, MarketPlace;
    MarketPlaceIsDrain(m, p);
  }

  lemma MarketPlaceIsDrain(m: Venue, p: Placement)
    ensures MarketPlace(m, p) == DrainMarket(MarketIntake(m, p), TakeIn(m.accounts, m.repo, p).events)
  {
    hide LockFunds, TryFill;
    var m1 := MarketIntake(m, p);
    var es := TakeIn(m.accounts, m.repo, p).events;
    if |es| == 1 { DrainOne(m1, es[0]); }
    else {
      DrainOne(m1.(log := m1.log + [es[0]]), es[1]);
      assert es[1..] == [es[1]] && es == [es[0]] + [es[1]];
      assert m1.log + [es[0]] + [es[1]] == m1.log + es;
    }
  }

  /** Canceling an order in the OMS and draining the queue is the canceling step. */
  lemma MarketCancelIsDrain(m: Venue, o: Order)
    requires o.id in m.repo.orders && m.repo.orders[o.id] == o
    ensures MarketStep(m, User(Cancel(o.id))) ==
      if o.status == Pending then Raised(InvalidOrderState)
      else if o.IsCancelable()
      then DrainMarket(m.(accounts := Unlock(m.accounts, o.account, o.id), repo := m.repo.Set(o.(status := Canceled))),
                       [OrderCanceled(o.id)])
      else DrainMarket(m, [CancelRejected(o.id)])
    ensures MarketStep(m, User(Cancel(o.id))).Raised? ==> o.status == Pending
  {
    hide Unlock, DrainMarket;
    CanceledDrains(m, o);
  }

  /** There is nothing to cancel under an unknown id. */
  lemma MarketCancelUnknown(m: Venue, id: OrderId)
    ensures id !in m.repo.orders ==> MarketStep(m, User(Cancel(id))) == Done(m)
  {
  }

  lemma CanceledDrains(m: Venue, o: Order)
    ensures var m1 := m.(accounts := Unlock(m.accounts, o.account, o.id), repo := m.repo.Set(o.(status := Canceled)));
      DrainMarket(m1, [OrderCanceled(o.id)]) == Done(m1.(log := m.log + [OrderCanceled(o.id)]))
    ensures DrainMarket(m, [CancelRejected(o.id)]) == Done(m.(log := m.log + [CancelRejected(o.id)]))
  {
    DrainOne(m.(accounts := Unlock(m.accounts, o.account, o.id), repo := m.repo.Set(o.(status := Canceled))),
      OrderCanceled(o.id));
    DrainOne(m, CancelRejected(o.id));
  }

  /** In a state of the invariant no admissible command of a fresh id raises, and the invariant holds after it. */
  lemma MarketCommandKeepsInv(m: Venue, c: MarketCommand)
    ensures MarketInv(m) && Admissible(c) && (IsPlace(c) ==> PlacedBy(c) !in m.repo.orders) ==>
      MarketStep(m, c).Done? && MarketInv(MarketStep(m, c).value)
  {
    hide MarketInv, MarketStep, Admissible;
    if MarketInv(m) && Admissible(c) && (IsPlace(c) ==> PlacedBy(c) !in m.repo.orders) { MarketStepKeepsInv(m, c); }
  }

  // ---------- what is left behind where the OMS refuses a fill ----------

  /** The trade is published and counted on the order, and that is all. */
  function FillRefused(m: Venue, id: OrderId, q: Quote): Venue
    requires id in m.repo.orders
  {
    var o := m.repo.orders[id];
    m.(repo := AfterRefusal(m.repo, id, o.Remaining()), log := m.log + [TradeExecuted(MarketTrade(o, q))])
  }

  /** All orders before one scanned, and the fill of that one refused. */
  ghost predicate ScanStopped(m: Venue, ids: seq<OrderId>, sym: Symbol, q: Quote, m': Venue) {
    exists k, m1 :: 0 <= k < |ids| && ScanOrders(m, ids[..k], sym, q) == Done(m1)
      && ids[k] in m1.repo.orders && m' == FillRefused(m1, ids[k], q)
  }

  /** The order is unknown, or its fill was refused. */
  predicate RouteRefused(m: Venue, id: OrderId, m': Venue) {
    if id !in m.repo.orders then m' == m
    else
      var sym := m.repo.orders[id].symbol;
      sym in m.quotes && m' == FillRefused(m, id, m.quotes[sym])
  }

  /** All events before a routing handled, that one published and its fill refused. */
  ghost predicate DrainStopped(m: Venue, es: seq<Event>, m': Venue) {
    exists k, m1 :: 0 <= k < |es| && DrainMarket(m, es[..k]) == Done(m1) && es[k].OrderRouted?
      && RouteRefused(m1.(log := m1.log + [es[k]]), es[k].id, m')
  }

  lemma {:induction false} ScannedAppend(m: Venue, ids: seq<OrderId>, id: OrderId, sym: Symbol, q: Quote)
    requires ScanOrders(m, ids, sym, q).Done?
    ensures ScanOrders(m, ids + [id], sym, q) == ScanOrders(ScanOrders(m, ids, sym, q).value, [id], sym, q)
    decreases |ids|
  {
    hide TryFill, Scanned;
    if ids == [] {
      assert [] + [id] == [id];
    } else {
      assert (ids + [id])[0] == ids[0] && (ids + [id])[1..] == ids[1..] + [id];
      if ids[0] in m.repo.orders && Scanned(m.repo.orders[ids[0]], sym) {
        ScannedAppend(TryFill(m, ids[0], q).value, ids[1..], id, sym, q);
      } else {
        ScannedAppend(m, ids[1..], id, sym, q);
      }
    }
  }

  lemma {:induction false} OneMoreScanned(m: Venue, ids: seq<OrderId>, k: nat, sym: Symbol, q: Quote)
    requires k < |ids| && ScanOrders(m, ids[..k], sym, q).Done?
    ensures var m1 := ScanOrders(m, ids[..k], sym, q).value;
      ScanOrders(m, ids[..k + 1], sym, q) ==
        if ids[k] in m1.repo.orders && Scanned(m1.repo.orders[ids[k]], sym) then TryFill(m1, ids[k], q) else Done(m1)
  {
    hide TryFill, Scanned;
    assert ids[..k + 1] == ids[..k] + [ids[k]];
    ScannedAppend(m, ids[..k], ids[k], sym, q);
    assert [ids[k]][1..] == [];
  }

  lemma NothingScanned(m: Venue, ids: seq<OrderId>, sym: Symbol, q: Quote)
    ensures ids[0..] == ids && ids[..|ids|] == ids
    ensures ScanOrders(m, ids[..0], sym, q) == Done(m) && ScanOrders(m, ids[|ids|..], sym, q) == Done(m)
  {
  }

  lemma StoppedHere(m: Venue, ids: seq<OrderId>, k: nat, sym: Symbol, q: Quote)
    requires k < |ids| && ScanOrders(m, ids[..k], sym, q).Done?
    ensures var m1 := ScanOrders(m, ids[..k], sym, q).value;
      ids[k] in m1.repo.orders ==> ScanStopped(m, ids, sym, q, FillRefused(m1, ids[k], q))
  {
  }

  lemma {:induction false} ScanGoesOn(m: Venue, ids: seq<OrderId>, k: nat, sym: Symbol, q: Quote)
    requires k < |ids|
    ensures ScanOrders(m, ids[k..], sym, q) ==
      if ids[k] in m.repo.orders && Scanned(m.repo.orders[ids[k]], sym) then
        match TryFill(m, ids[k], q)
        case Raised(e) => Raised(e)
        case Done(m1) => ScanOrders(m1, ids[k + 1..], sym, q)
      else ScanOrders(m, ids[k + 1..], sym, q)
  {
    hide TryFill, Scanned;
    assert ids[k..][0] == ids[k] && ids[k..][1..] == ids[k + 1..];
  }

  lemma {:induction false} DrainedAppend(m: Venue, es: seq<Event>, e: Event)
    requires DrainMarket(m, es).Done?
    ensures DrainMarket(m, es + [e]) == HandleMarket(DrainMarket(m, es).value, e)
    decreases |es|
  {
    hide HandleMarket;
    if es == [] {
      assert ([] + [e])[1..] == [];
    } else {
      assert (es + [e])[0] == es[0] && (es + [e])[1..] == es[1..] + [e];
      DrainedAppend(HandleMarket(m, es[0]).value, es[1..], e);
    }
  }

  lemma {:induction false} OneMoreDrained(m: Venue, es: seq<Event>, k: nat)
    requires k < |es| && DrainMarket(m, es[..k]).Done?
    ensures DrainMarket(m, es[..k + 1]) == HandleMarket(DrainMarket(m, es[..k]).value, es[k])
  {
    hide HandleMarket;
    assert es[..k + 1] == es[..k] + [es[k]];
    DrainedAppend(m, es[..k], es[k]);
  }

  /** The steps of a fill, when the OMS accepts it. */
  lemma FillSteps(m: Venue, id: OrderId, q: Quote, r: Repo, fills: seq<Event>)
    requires id in m.repo.orders && m.repo.orders[id].id == id && Fillable(m.repo.orders[id], q)
    requires var qty := m.repo.orders[id].Remaining();
      qty > 0.0 && OnFill(m.repo, id, qty) == Done(r) && id in r.orders && fills == [] + [FillEvent(r.orders[id], qty)]
    ensures var o := m.repo.orders[id];
      TryFill(m, id, q) == Done(Venue(
        SettleMarket(m.accounts, o.account, id, o.symbol, o.side, QuotedPrice(o.side, q), o.Remaining()), r, m.quotes,
        m.log + [TradeExecuted(MarketTrade(o, q))] + fills))
  {
    hide OnFill, SettleMarket, Fillable;
    var o := m.repo.orders[id];
    assert m.log + [TradeExecuted(MarketTrade(o, q))] + fills
        == m.log + [TradeExecuted(MarketTrade(o, q)), FillEvent(r.orders[id], o.Remaining())];
  }

  lemma FillRaises(m: Venue, id: OrderId, q: Quote, e: Error)
    requires id in m.repo.orders && m.repo.orders[id].id == id && Fillable(m.repo.orders[id], q)
    requires m.repo.orders[id].Remaining() > 0.0 && OnFill(m.repo, id, m.repo.orders[id].Remaining()) == Raised(e)
    ensures TryFill(m, id, q) == Raised(e)
  {
    hide OnFill;
  }

  class MarketApp {
    const accounts: AccountService
    const repo: OrderRepository
    const oms: OmsService
    var quotes: map<Symbol, Quote>
    var log: seq<Event>
    var nextEvent: EventId

    constructor ()
      ensures Valid() && oms.queue == [] && View() == OPENING && fresh(Repr())
    {
      var ledger := new AccountService();
      var orders := new OrderRepository();
      accounts, repo, quotes, log, nextEvent := ledger, orders, map[], [], 0;
      oms := new OmsService(orders, ledger);
    }

    ghost function Repr(): set<object>
      reads this, accounts, repo
    {
      {this, oms} + accounts.Repr + repo.Repr
    }

    ghost predicate Valid()
      reads this, oms, accounts, repo, accounts.Repr, repo.Repr
    {
      && oms.repo == repo && oms.funds == accounts && oms.Valid() && this !in accounts.Repr && this !in repo.Repr
      && forall e :: e in oms.processed ==> e < nextEvent
    }

    ghost function View(): Venue
      requires Valid()
      reads this, oms, accounts, repo, accounts.Repr, repo.Repr
    {
      Venue(accounts.View(), repo.View(), quotes, log)
    }

    /** Fill what remains of an order if the quote allows it. */
    method TryToFill(id: OrderId, quote: Quote) returns (error: Option<Error>)
      requires Valid() && oms.queue == [] && id in View().repo.orders
      modifies Repr()
      ensures Valid() && fresh(Repr() - old(Repr()))
      ensures error.None? ==> oms.queue == [] && TryFill(old(View()), id, quote) == Done(View())
      ensures error.Some? ==>
        TryFill(old(View()), id, quote) == Raised(error.value) && View() == FillRefused(old(View()), id, quote)
      ensures var o := old(View()).repo.orders[id];
        if !Meets(o, quote) || o.Remaining() <= 0.0 then error.None? && View() == old(View())
        else error.None? ==> FilledAt(old(View()), id, quote, View())
    {
      hide AccountService.View, AccountService.Valid, FilledAt;
      ghost var m := View();
      repo.OrdersUnderTheirIds();
      FillTells(m, id, quote);
      hide TryFill;
      var order := repo.orders[id];
      var effective := EffectivePrice(order.side, order.otype, order.price);
      var matched, price := false, 0.0;
      if order.side == Buy {
        if effective >= quote.ask && quote.ask > 0.0 {
          matched, price := true, quote.ask;
        }
      } else if effective <= quote.bid && quote.bid > 0.0 {
        matched, price := true, quote.bid;
      }
      if !matched {
        return None;
      }
      var qty := order.qty - order.filledQty;
      if qty <= 0.0 {
        return None;
      }
      error := FillAt(order.View(), quote, price, qty);
    }

    /** Publish the trade, count it, settle it, publish the fill. */
    method FillAt(o: Order, quote: Quote, price: real, qty: real) returns (error: Option<Error>)
      requires Valid() && oms.queue == [] && o.id in View().repo.orders && View().repo.orders[o.id] == o
      requires Fillable(o, quote) && price == QuotedPrice(o.side, quote) && qty == o.Remaining() && qty > 0.0
      modifies Repr()
      ensures Valid() && fresh(Repr() - old(Repr()))
      ensures error.None? ==> oms.queue == [] && TryFill(old(View()), o.id, quote) == Done(View())
      ensures error.Some? ==>
        TryFill(old(View()), o.id, quote) == Raised(error.value) && View() == FillRefused(old(View()), o.id, quote)
    {
      hide OnFill, Fillable, TryFill, SettleMarket, AccountService.View, AccountService.Valid, OrderRepository.View,
        OrderRepository.Valid;
      ghost var m := View();
      log := log + [TradeExecuted(Trade(o.symbol, price, qty, o.id, o.id, if o.side == Buy then Sell else Buy))];
      error := oms.OnMarketFill(o.id, qty);
      if error.Some? {
        FillRaises(m, o.id, quote, error.value);
        return;
      }
      error := accounts.SettleMarketTrade(o.account, o.id, o.symbol, o.side, price, qty);
      assert error.None?;
      var fills := oms.DrainEvents();
      log := log + fills;
      FillKeepsKeys(m.repo, o.id, qty);
      FillSteps(m, o.id, quote, repo.View(), fills);
    }

    method IsScanned(id: OrderId, sym: Symbol) returns (open: bool)
      requires Valid()
      ensures open <==> id in View().repo.orders && Scanned(View().repo.orders[id], sym)
    {
      if id !in repo.orders {
        return false;
      }
      var order := repo.orders[id];
      return order.symbol == sym && order.status in {Routed, PartiallyFilled} && order.qty - order.filledQty > 0.0;
    }

    /** Scan the orders, in order of arrival, against a quote of their symbol. */
    method CheckRestingOrders(sym: Symbol) returns (error: Option<Error>)
      requires Valid() && oms.queue == []
      modifies Repr()
      ensures Valid() && fresh(Repr() - old(Repr()))
      ensures sym !in old(quotes) ==> error.None? && View() == old(View()) && oms.queue == []
      ensures sym in old(quotes) && error.None? ==>
        oms.queue == [] && ScanOrders(old(View()), old(View()).repo.ids, sym, old(quotes)[sym]) == Done(View())
      ensures sym in old(quotes) && error.Some? ==>
        && ScanOrders(old(View()), old(View()).repo.ids, sym, old(quotes)[sym]) == Raised(error.value)
        && ScanStopped(old(View()), old(View()).repo.ids, sym, old(quotes)[sym], View())
    {
      hide Scanned, ScanOrders, AccountService.View, AccountService.Valid, OrderRepository.View, OrderRepository.Valid;
      if sym !in quotes {
        return None;
      }
      var quote := quotes[sym];
      var ids := repo.ListIds();
      error := ScanIds(ids, sym, quote);
    }

    method ScanIds(ids: seq<OrderId>, sym: Symbol, quote: Quote) returns (error: Option<Error>)
      requires Valid() && oms.queue == []
      modifies Repr()
      ensures Valid() && fresh(Repr() - old(Repr()))
      ensures error.None? ==> oms.queue == [] && ScanOrders(old(View()), ids, sym, quote) == Done(View())
      ensures error.Some? ==>
        && ScanOrders(old(View()), ids, sym, quote) == Raised(error.value)
        && ScanStopped(old(View()), ids, sym, quote, View())
    {
      hide View, Valid, ScanOrders, ScanStopped, TryFill, FillRefused, Scanned;
      ghost var m := View();
      NothingScanned(m, ids, sym, quote);
      for i := 0 to |ids|
        invariant Valid() && fresh(Repr() - old(Repr())) && oms.queue == []
        invariant ScanOrders(m, ids, sym, quote) == ScanOrders(View(), ids[i..], sym, quote)
        invariant ScanOrders(m, ids[..i], sym, quote) == Done(View())
      {
        OneMoreScanned(m, ids, i, sym, quote);
        ScanGoesOn(View(), ids, i, sym, quote);
        var open := IsScanned(ids[i], sym);
        if open {
          error := TryToFill(ids[i], quote);
          if error.Some? {
            StoppedHere(m, ids, i, sym, quote);
            return;
          }
        }
      }
      NothingScanned(View(), ids, sym, quote);
      error := None;
    }

    method Route(id: OrderId) returns (error: Option<Error>)
      requires Valid() && oms.queue == []
      modifies Repr()
      ensures Valid() && fresh(Repr() - old(Repr()))
      ensures error.None? ==> oms.queue == [] && RouteToMarket(old(View()), id) == Done(View())
      ensures error.Some? ==>
        RouteToMarket(old(View()), id) == Raised(error.value) && RouteRefused(old(View()), id, View())
    {
      hide TryFill, AccountService.View, AccountService.Valid;
      if id !in repo.orders {
        return Some(OrderNotFound);
      }
      var order := repo.orders[id];
      if order.symbol !in quotes {
        return None;
      }
      error := TryToFill(id, quotes[order.symbol]);
    }

    method ProcessOmsEvents() returns (error: Option<Error>)
      requires Valid()
      modifies Repr()
      ensures Valid() && fresh(Repr() - old(Repr()))
      ensures error.None? ==> oms.queue == [] && DrainMarket(old(View()), old(oms.queue)) == Done(View())
      ensures error.Some? ==>
        && DrainMarket(old(View()), old(oms.queue)) == Raised(error.value)
        && DrainStopped(old(View()), old(oms.queue), View())
    {
      hide RouteToMarket, AccountService.View, AccountService.Valid, OrderRepository.View, OrderRepository.Valid;
      ghost var m := View();
      var events := oms.DrainEvents();
      for i := 0 to |events|
        invariant Valid() && fresh(Repr() - old(Repr())) && oms.queue == []
        invariant DrainMarket(m, events) == DrainMarket(View(), events[i..])
        invariant DrainMarket(m, events[..i]) == Done(View())
      {
        OneMoreDrained(m, events, i);
        assert events[i..][0] == events[i] && events[i..][1..] == events[i + 1..];
        log := log + [events[i]];
        if events[i].OrderRouted? {
          error := Route(events[i].id);
          if error.Some? {
            return;
          }
        }
      }
      var leftover := oms.DrainEvents();
      assert log + leftover == log;
      log := log + leftover;
      error := None;
    }

    // ---------- commands ----------

    method Place(p: Placement) returns (error: Option<Error>)
      requires Valid() && oms.queue == []
      modifies Repr()
      ensures Valid() && fresh(Repr() - old(Repr()))
      ensures error.None? ==> MarketStep(old(View()), User(Command.Place(p))) == Done(View()) && oms.queue == []
      ensures error.Some? ==>
        && MarketStep(old(View()), User(Command.Place(p))) == Raised(error.value)
        && var taken := TakeIn(old(View()).accounts, old(View()).repo, p);
        DrainStopped(MarketIntake(old(View()), p), taken.events, View())
      ensures MarketInv(old(View())) && p.id !in old(View()).repo.orders && Admissible(User(Command.Place(p))) ==>
        error.None? && MarketInv(View())
    {
      hide View, Valid, TakeIn, MarketIntake, MarketPlace, MarketStep, DrainMarket, DrainStopped, MarketInv, Admissible;
      ghost var m := View();
      TakeOrder(p);
      error := ProcessOmsEvents();
      PlaceDrains(m, p);
      MarketCommandKeepsInv(m, User(Command.Place(p)));
    }

    method TakeOrder(p: Placement)
      requires Valid() && oms.queue == []
      modifies Repr()
      ensures Valid() && fresh(Repr() - old(Repr())) && View() == MarketIntake(old(View()), p)
      ensures oms.queue == TakeIn(old(View()).accounts, old(View()).repo, p).events
    {
      hide TakeIn, Shortage, AccountService.View, AccountService.Valid, OrderRepository.View, OrderRepository.Valid;
      log := log + [OrderPlaced(p)];
      var event := nextEvent;
      nextEvent := nextEvent + 1;
      oms.PlaceOrder(event, p);
      assert forall es: seq<Event> :: [] + es == es;
    }

    /** As in the other mode, whatever is refused is answered with status 400. */
    method Cancel(id: OrderId, caller: AccountId, isAdmin: bool) returns (error: Option<Error>, status: nat)
      requires Valid() && oms.queue == []
      modifies Repr()
      ensures Valid() && fresh(Repr() - old(Repr())) && oms.queue == []
      ensures var m := old(View());
        if id !in m.repo.orders then error == Some(OrderNotFound) && status == 400 && View() == m
        else if caller != m.repo.orders[id].account && !isAdmin then
          error == Some(NotYourOrder) && status == 400 && View() == m
        else if error.Some? then
          && error == Some(InvalidOrderState) && status == 400
          && MarketStep(m, User(Command.Cancel(id))) == Raised(InvalidOrderState)
          && View() == m.(accounts := Unlock(m.accounts, m.repo.orders[id].account, id))
        else
          && MarketStep(m, User(Command.Cancel(id))) == Done(View())
          && status == if m.repo.orders[id].status in {Pending, Accepted, Routed, PartiallyFilled} then 200 else 400
      ensures MarketInv(old(View())) ==> MarketInv(View())
      ensures var orders := old(View()).repo.orders;
        MarketInv(old(View())) && id in orders && (caller == orders[id].account || isAdmin) ==> error.None?
    {
      hide CancelOrder, MarketStep, MarketInv, AccountService.View, AccountService.Valid,
        OrderRepository.View, OrderRepository.Valid;
      var known := repo.Knows(id);
      if !known {
        return Some(OrderNotFound), 400;
      }
      var owner := repo.AccountOf(id);
      if owner != caller && !isAdmin {
        return Some(NotYourOrder), 400;
      }
      var canceled;
      error, canceled := CancelKnown(id);
      status := if canceled then 200 else 400;
    }

    method CancelKnown(id: OrderId) returns (error: Option<Error>, canceled: bool)
      requires Valid() && oms.queue == [] && id in View().repo.orders
      modifies Repr()
      ensures Valid() && fresh(Repr() - old(Repr()))
      ensures var m := old(View());
        if error.Some? then
          && MarketStep(m, User(Command.Cancel(id))) == Raised(InvalidOrderState)
          && error == Some(InvalidOrderState) && oms.queue == []
          && View() == m.(accounts := Unlock(m.accounts, m.repo.orders[id].account, id))
        else MarketStep(m, User(Command.Cancel(id))) == Done(View()) && oms.queue == []
      ensures canceled <==> error.None? && old(View()).repo.orders[id].IsCancelable()
      ensures MarketInv(old(View())) ==> error.None? && MarketInv(View())
    {
      hide DrainMarket, CancelOrder, MarketStep, MarketInv, AccountService.View, AccountService.Valid,
        OrderRepository.View, OrderRepository.Valid;
      ghost var m := View();
      repo.OrdersUnderTheirIds();
      MarketCancelUnknown(m, id);
      if id in m.repo.orders { MarketCancelIsDrain(m, m.repo.orders[id]); }
      MarketCommandKeepsInv(m, User(Command.Cancel(id)));
      assert forall es: seq<Event> :: [] + es == es;
      error, canceled := oms.CancelOrder(id);
      if error.Some? {
        return;
      }
      error := ProcessOmsEvents();
      canceled := canceled && error.None?;
    }

    /** A quote arrives: remember it and scan. */
    method OnMarketData(sym: Symbol, quote: Quote) returns (error: Option<Error>)
      requires Valid() && oms.queue == []
      modifies Repr()
      ensures Valid() && fresh(Repr() - old(Repr()))
      ensures error.None? ==> MarketStep(old(View()), Tick(sym, quote)) == Done(View()) && oms.queue == []
      ensures error.Some? ==>
        && MarketStep(old(View()), Tick(sym, quote)) == Raised(error.value)
        && var m := old(View()).(quotes := old(View()).quotes[sym := quote]);
        ScanStopped(m, m.repo.ids, sym, quote, View())
      ensures MarketInv(old(View())) ==> error.None? && MarketInv(View()) && NothingFillable(View(), sym)
    {
      hide ScanOrders, MarketInv, NothingFillable, AccountService.View, AccountService.Valid, OrderRepository.View,
        OrderRepository.Valid;
      ghost var m := View();
      if MarketInv(m) { TickKeepsInv(m, sym, quote); }
      quotes := quotes[sym := quote];
      error := CheckRestingOrders(sym);
    }
  }
}

/** The cash lock of a BUY order, exactly, and the residue that price improvement strands in it. */
module ExactLocks {
  import opened Domain
  import opened Matching
  import opened Ledger
  import opened LedgerLaws
  import opened Orders
  import opened Exchange
  import opened Agreement
  import opened Settling
  import opened Runs
  import opened LogShape
  import opened ReplayRuns

  /** What the log says an order has paid. */
  function Spent(es: seq<Event>, id: OrderId): real {
    if es == [] then 0.0
    else (if es[0].TradeExecuted? then Charge(es[0].trade, id) else 0.0) + Spent(es[1..], id)
  }

  /** What a trade charges an order's lock. */
  function Charge(t: Trade, id: OrderId): real { if t.buyId == id then Value(t.price, t.qty) else 0.0 }

  lemma {:induction false} SpentAppend(xs: seq<Event>, ys: seq<Event>, id: OrderId)
    ensures Spent(xs + ys, id) == Spent(xs, id) + Spent(ys, id)
  {
    if xs == [] { assert xs + ys == ys; }
    else {
      assert (xs + ys)[1..] == xs[1..] + ys;
      SpentAppend(xs[1..], ys, id);
    }
  }

  lemma {:induction false} NothingSpent(es: seq<Event>, id: OrderId)
    requires forall e :: e in es ==> !(e.TradeExecuted? && e.trade.buyId == id)
    ensures Spent(es, id) == 0.0
  {
    if es != [] {
      assert es[0] in es;
      NothingSpent(es[1..], id);
    }
  }

  /**
   * A BUY lock holds the limit times the quantity, less what was paid; it is there from acceptance on unless
   * canceled.
   */
  ghost predicate LockExact(l: Accounts, o: Order, spent: real) {
    o.side == Buy && HoldsLock(o) ==>
      o.id in l.Get(o.account).locks && l.Get(o.account).locks[o.id].cash == Value(o.Limit(), o.qty) - spent
  }

  ghost predicate LocksExact(l: Accounts, orders: map<OrderId, Order>, log: seq<Event>) {
    forall id :: id in orders ==> LockExact(l, orders[id], Spent(log, id))
  }

  /** What a settlement does to the BUY locks: it charges the buyer's, and leaves every other one alone. */
  lemma SettleBuyLock(l: Accounts, orders: map<OrderId, Order>, t: Trade, b: Order, a: Order, o: Order)
    requires LedgerAgrees(l, orders) && b.id in orders && orders[b.id] == b && a.id in orders && orders[a.id] == a
    requires OrderOk(b.id, b) && OrderOk(a.id, a) && Rests(b, t.symbol, Buy) && Rests(a, t.symbol, Sell)
    requires t.buyId == b.id && t.sellId == a.id
    requires 0.0 < t.qty <= b.Remaining() && t.qty <= a.Remaining() && 0.0 <= t.price <= b.Limit()
    requires o.id in orders && orders[o.id] == o && o.side == Buy && HoldsLock(o)
    ensures var l' := Settle(l, b.account, a.account, t.buyId, t.sellId, t.symbol, t.price, t.qty);
      && o.id in l.Get(o.account).locks && o.id in l'.Get(o.account).locks
      && l'.Get(o.account).locks[o.id].cash == l.Get(o.account).locks[o.id].cash - Charge(t, o.id)
  {
    var price, qty := t.price, t.qty;
    hide Value, LedgerAgrees;
    LocksRead(l, orders, a);
    LocksRead(l, orders, o);
    BuyLegLocks(l, orders, b, price, qty);
    assert l.Get(a.account).locks[a.id].cash == 0.0 && l.Get(a.account).locks[a.id].qty == a.Remaining();
    assert a.side == Sell && Charge(t, o.id) == if o.id == b.id then Value(price, qty) else 0.0;
    assert a.id != o.id && a.id != b.id && b.symbol == t.symbol;
    hide *;
    var x := BuyLeg(l.Get(b.account), b.id, b.symbol, price, qty);
    SettleLegs(l, b.account, a.account, b.id, a.id, t.symbol, price, qty);
    if a.account == b.account { SellLegLeaves(x, a.id, o.id, b.symbol, price, qty); }
    else { SellLegLeaves(l.Get(a.account), a.id, o.id, b.symbol, price, qty); }
  }

  lemma SellLegLeaves(x: Account, id: OrderId, other: OrderId, sym: Symbol, price: real, qty: real)
    requires id in x.locks && x.locks[id].cash == 0.0 && qty <= x.locks[id].qty && other != id
    ensures var y := SellLeg(x, id, sym, price, qty);
      (other in y.locks <==> other in x.locks) && (other in x.locks ==> y.locks[other] == x.locks[other])
  {
    hide SellLeg, Value, CostAfterSale;
    SellLegFields(x, id, sym, price, qty);
  }

  /** A settlement account by account. */
  lemma SettleLegs(l: Accounts, b: AccountId, s: AccountId, bid: OrderId, sid: OrderId, sym: Symbol, price: real,
                   qty: real)
    ensures var x := BuyLeg(l.Get(b), bid, sym, price, qty);
      var l' := Settle(l, b, s, bid, sid, sym, price, qty);
      && (b != s ==> l'.Get(b) == x && l'.Get(s) == SellLeg(l.Get(s), sid, sym, price, qty))
      && (b == s ==> l'.Get(b) == SellLeg(x, sid, sym, price, qty))
      && forall a :: a != b && a != s ==> l'.Get(a) == l.Get(a)
  {
    hide BuyLeg, SellLeg;
  }

  lemma BuyLegLocks(l: Accounts, orders: map<OrderId, Order>, b: Order, price: real, qty: real)
    requires LedgerAgrees(l, orders) && b.id in orders && orders[b.id] == b && OrderOk(b.id, b) && Live(b) &&
      b.side == Buy
    requires 0.0 < qty <= b.Remaining() && 0.0 <= price <= b.Limit()
    ensures b.id in l.Get(b.account).locks
    ensures var k := l.Get(b.account).locks[b.id];
      BuyLeg(l.Get(b.account), b.id, b.symbol, price, qty).locks
        == l.Get(b.account).locks[b.id := k.(cash := k.cash - Value(price, qty))]
  {
    hide Value;
    var k := l.Get(b.account).locks[b.id];
    assert LockFor(b, k);
    LimitCovers(b.Limit(), price, b.Remaining(), qty, k.cash);
    BuyLegKeepsBalance(l.Get(b.account), b.id, b.symbol, price, qty);
  }

  /** One crossing keeps every BUY lock exact. */
  lemma {:induction false} CrossExact(d: Desk, books: map<Symbol, Book>, sym: Symbol)
    requires Agrees(d.accounts, d.repo, books) && Crossable(BookOf(books, sym))
    requires LocksExact(d.accounts, d.repo.orders, d.log)
    ensures var r := ApplyTrade(d, TradeBetween(sym, BookOf(books, sym).bids[0], BookOf(books, sym).asks[0]));
      r.Done? && LocksExact(r.value.accounts, r.value.repo.orders, r.value.log)
  {
    var b := BookOf(books, sym);
    var t := TradeBetween(sym, b.bids[0], b.asks[0]);
    CrossBooks(d.repo, books, sym, t.qty);
    var buy, sell := d.repo.orders[t.buyId], d.repo.orders[t.sellId];
    assert OrderOk(buy.id, buy) && OrderOk(sell.id, sell);
    assert AboutToSettle(d, t, buy, sell);
    hide AboutToSettle, LocksExact, LedgerAgrees, BooksAgree, RepoOk;
    FillAccepted(buy.id, buy, t.qty);
    FillAccepted(sell.id, sell, t.qty);
    TradeUnfolds(d, t, buy, sell);
    TradeExact(d, t, buy, sell);
  }

  /** What holds when a trade between two resting orders is about to settle. */
  ghost predicate AboutToSettle(d: Desk, t: Trade, buy: Order, sell: Order) {
    && LedgerAgrees(d.accounts, d.repo.orders) && LocksExact(d.accounts, d.repo.orders, d.log)
    && (forall id :: id in d.repo.orders ==> OrderOk(id, d.repo.orders[id]))
    && t.buyId in d.repo.orders && d.repo.orders[t.buyId] == buy && Rests(buy, t.symbol, Buy) && buy.id == t.buyId
    && t.sellId in d.repo.orders && d.repo.orders[t.sellId] == sell && Rests(sell, t.symbol, Sell)
    && sell.id == t.sellId
    && 0.0 < t.qty <= buy.Remaining() && t.qty <= sell.Remaining() && 0.0 <= t.price <= buy.Limit()
  }

  lemma {:induction false} TradeExact(d: Desk, t: Trade, buy: Order, sell: Order)
    requires AboutToSettle(d, t, buy, sell)
    ensures t.buyId in d.repo.orders && t.sellId in d.repo.orders
    ensures LocksExact(Settle(d.accounts, buy.account, sell.account, t.buyId, t.sellId, t.symbol, t.price, t.qty),
                       d.repo.orders[buy.id := AfterFill(buy, t.qty)][sell.id := AfterFill(sell, t.qty)],
                       d.log + [TradeExecuted(t), SettlementOf(d.repo, t)])
  {
    var orders' := d.repo.orders[buy.id := AfterFill(buy, t.qty)][sell.id := AfterFill(sell, t.qty)];
    assert orders'.Keys == d.repo.orders.Keys;
    forall id | id in orders'
      ensures LockExact(Settle(d.accounts, buy.account, sell.account, t.buyId, t.sellId, t.symbol, t.price, t.qty),
                        orders'[id], Spent(d.log + [TradeExecuted(t), SettlementOf(d.repo, t)], id))
    {
      hide *;
      OneLockExact(d, t, buy, sell, id);
    }
  }

  lemma {:induction false} OneLockExact(d: Desk, t: Trade, buy: Order, sell: Order, id: OrderId)
    requires AboutToSettle(d, t, buy, sell) && id in d.repo.orders
    ensures LockExact(Settle(d.accounts, buy.account, sell.account, t.buyId, t.sellId, t.symbol, t.price, t.qty),
                      d.repo.orders[buy.id := AfterFill(buy, t.qty)][sell.id := AfterFill(sell, t.qty)][id],
                      Spent(d.log + [TradeExecuted(t), SettlementOf(d.repo, t)], id))
  {
    hide LedgerAgrees;
    var o := d.repo.orders[id];
    var o' := d.repo.orders[buy.id := AfterFill(buy, t.qty)][sell.id := AfterFill(sell, t.qty)][id];
    assert OrderOk(id, o) && o.id == id && LockExact(d.accounts, o, Spent(d.log, id));
    assert SameTerms(o, o') && (HoldsLock(o') ==> HoldsLock(o));
    assert OrderOk(buy.id, buy) && OrderOk(sell.id, sell);
    hide *;
    if o.side == Buy && HoldsLock(o) { SettleBuyLock(d.accounts, d.repo.orders, t, buy, sell, o); }
    SpentAfterTrade(d.log, t, SettlementOf(d.repo, t), id);
    Charged(d.accounts, Settle(d.accounts, buy.account, sell.account, t.buyId, t.sellId, t.symbol, t.price, t.qty),
            o, o', Spent(d.log, id), Charge(t, id));
  }

  lemma Charged(l: Accounts, l': Accounts, o: Order, o': Order, spent: real, paid: real)
    requires LockExact(l, o, spent) && SameTerms(o, o') && (HoldsLock(o') ==> HoldsLock(o))
    requires o.side == Buy && HoldsLock(o) ==>
      && o.id in l.Get(o.account).locks && o.id in l'.Get(o.account).locks
      && l'.Get(o.account).locks[o.id].cash == l.Get(o.account).locks[o.id].cash - paid
    ensures LockExact(l', o', spent + paid)
  {
  }

  lemma SpentAfterTrade(log: seq<Event>, t: Trade, e: Event, id: OrderId)
    requires e.TradeSettlement?
    ensures Spent(log + [TradeExecuted(t), e], id) == Spent(log, id) + Charge(t, id)
  {
    var es := [TradeExecuted(t), e];
    SpentAppend(log, es, id);
    assert es[1..] == [e];
    NothingSpent([e], id);
    assert Spent(es, id) == Charge(t, id) + Spent(es[1..], id);
  }

  lemma {:induction false} LoopExact(d: Desk, books: map<Symbol, Book>, sym: Symbol)
    requires Agrees(d.accounts, d.repo, books) && LocksExact(d.accounts, d.repo.orders, d.log)
    ensures var r := ApplyTrades(d, Match(sym, BookOf(books, sym)).trades);
      r.Done? && LocksExact(r.value.accounts, r.value.repo.orders, r.value.log)
    decreases |BookOf(books, sym).bids| + |BookOf(books, sym).asks|
  {
    hide Agrees, LocksExact;
    var b := BookOf(books, sym);
    if Crossable(b) {
      CrossAgrees(d, books, sym);
      CrossExact(d, books, sym);
      FirstRoundOfLoop(d, sym, b);
      LoopExact(ApplyTrade(d, TradeBetween(sym, b.bids[0], b.asks[0])).value, books[sym := CrossOnce(b)], sym);
    }
  }

  // ---------- whole runs ----------

  /** Nothing is ever charged to an id that was not placed. */
  ghost predicate OnlyOrdersSpend(orders: map<OrderId, Order>, log: seq<Event>) {
    forall id :: id !in orders ==> Spent(log, id) == 0.0
  }

  ghost predicate Exact(s: State) {
    LocksExact(s.accounts, s.repo.orders, s.log) && OnlyOrdersSpend(s.repo.orders, s.log)
  }

  /** Every BUY lock of l is found in l', same cash. */
  ghost predicate SameBuyLocks(l: Accounts, l': Accounts, orders: map<OrderId, Order>) {
    forall id ::
      && id in orders && orders[id].side == Buy && HoldsLock(orders[id])
      && orders[id].id in l.Get(orders[id].account).locks ==>
      && orders[id].id in l'.Get(orders[id].account).locks
      && l'.Get(orders[id].account).locks[orders[id].id].cash == l.Get(orders[id].account).locks[orders[id].id].cash
  }

  lemma QuietExact(l: Accounts, l': Accounts, orders: map<OrderId, Order>, log: seq<Event>, es: seq<Event>)
    requires LocksExact(l, orders, log) && SameBuyLocks(l, l', orders)
    requires forall e :: e in es ==> !e.TradeExecuted?
    ensures LocksExact(l', orders, log + es)
  {
    forall id | id in orders ensures LockExact(l', orders[id], Spent(log + es, id)) {
      assert LockExact(l, orders[id], Spent(log, id));
      SpentAppend(log, es, id);
      NothingSpent(es, id);
    }
  }

  lemma QuietSpend(orders: map<OrderId, Order>, orders': map<OrderId, Order>, log: seq<Event>, es: seq<Event>)
    requires OnlyOrdersSpend(orders, log) && orders.Keys <= orders'.Keys
    requires forall e :: e in es ==> !e.TradeExecuted?
    ensures OnlyOrdersSpend(orders', log + es)
  {
    forall id | id !in orders' ensures Spent(log + es, id) == 0.0 {
      SpentAppend(log, es, id);
      NothingSpent(es, id);
    }
  }

  lemma {:induction false} TradesSpend(d: Desk, ts: seq<Trade>)
    requires ApplyTrades(d, ts).Done? && OnlyOrdersSpend(d.repo.orders, d.log)
    ensures OnlyOrdersSpend(ApplyTrades(d, ts).value.repo.orders, ApplyTrades(d, ts).value.log)
    decreases |ts|
  {
    if ts != [] {
      var t := ts[0];
      var d1 := ApplyTrade(d, t).value;
      TradeLog(d, t);
      hide ApplyTrade;
      forall id | id !in d1.repo.orders ensures Spent(d1.log, id) == 0.0 {
        SpentAfterTrade(d.log, t, SettlementOf(d.repo, t), id);
      }
      TradesSpend(d1, ts[1..]);
    }
  }

  lemma ExactFunds(s: State, c: Command)
    requires Exact(s) && (c.CashIn? || c.CashOut? || c.SharesIn?)
    ensures Step(s, c).Done? && Exact(Step(s, c).value)
  {
    FundsStep(s, c);
    StepLog(s, c);
    var s' := Step(s, c).value;
    assert forall a :: s'.accounts.Get(a).locks == s.accounts.Get(a).locks;
    QuietExact(s.accounts, s'.accounts, s.repo.orders, s.log, NewEvents(s, c));
    QuietSpend(s.repo.orders, s.repo.orders, s.log, NewEvents(s, c));
  }

  lemma ExactCancel(s: State, id: OrderId)
    requires Inv(s) && Exact(s)
    ensures Step(s, Cancel(id)).Done? && Exact(Step(s, Cancel(id)).value)
  {
    hide RoutingEvents;
    CancelCases(s, id);
    var s' := Step(s, Cancel(id)).value;
    StepLog(s, Cancel(id));
    if id in s.repo.orders && s.repo.orders[id].IsCancelable() {
      assert forall x :: x in s.repo.orders ==> OrderOk(x, s.repo.orders[x]);
      CanceledExact(s, id);
    } else {
      assert s'.accounts == s.accounts;
      QuietExact(s.accounts, s.accounts, s.repo.orders, s.log, NewEvents(s, Cancel(id)));
    }
    QuietSpend(s.repo.orders, s'.repo.orders, s.log, NewEvents(s, Cancel(id)));
  }

  lemma CanceledExact(s: State, id: OrderId)
    requires LocksExact(s.accounts, s.repo.orders, s.log) && id in s.repo.orders
    requires forall x :: x in s.repo.orders ==> OrderOk(x, s.repo.orders[x])
    ensures LocksExact(Unlock(s.accounts, s.repo.orders[id].account, id),
                       s.repo.orders[id := s.repo.orders[id].(status := Canceled)], s.log + [OrderCanceled(id)])
  {
    var l' := Unlock(s.accounts, s.repo.orders[id].account, id);
    var orders' := s.repo.orders[id := s.repo.orders[id].(status := Canceled)];
    forall x | x in orders' ensures LockExact(l', orders'[x], Spent(s.log + [OrderCanceled(id)], x)) {
      SpentAppend(s.log, [OrderCanceled(id)], x);
      NothingSpent([OrderCanceled(id)], x);
      assert LockExact(s.accounts, s.repo.orders[x], Spent(s.log, x));
      assert OrderOk(x, s.repo.orders[x]);
    }
  }

  /** The new lock starts out with the whole value at the limit. */
  lemma ExactPlaced(s: State, p: Placement, status: Status, es: seq<Event>)
    requires Exact(s) && p.id !in s.repo.orders && (status == Rejected || (status == Routed && Accepts(s, p)))
    requires forall id :: id in s.repo.orders ==> s.repo.orders[id].id == id
    requires forall e :: e in es ==> !e.TradeExecuted?
    ensures var l' := LockFunds(s.accounts, p.account, p.id, p.symbol, p.side, p.qty, p.price).accounts;
      var orders' := s.repo.orders[p.id := NewOrder(p).(status := status)];
      LocksExact(l', orders', s.log + es) && OnlyOrdersSpend(orders', s.log + es)
  {
    hide Value;
    var l' := LockFunds(s.accounts, p.account, p.id, p.symbol, p.side, p.qty, p.price).accounts;
    var orders' := s.repo.orders[p.id := NewOrder(p).(status := status)];
    forall id | id in orders' ensures LockExact(l', orders'[id], Spent(s.log + es, id)) {
      SpentAppend(s.log, es, id);
      NothingSpent(es, id);
      if id != p.id { assert LockExact(s.accounts, s.repo.orders[id], Spent(s.log, id)); }
    }
    QuietSpend(s.repo.orders, orders', s.log, es);
  }

  lemma {:induction false} ExactAccepted(s: State, p: Placement)
    requires Inv(s) && Exact(s) && p.id !in s.repo.orders && p.qty > 0.0 && SaneShape(p.side, p.otype, p.price) &&
      Accepts(s, p)
    ensures Step(s, Place(p)).Done? && Exact(Step(s, Place(p)).value)
  {
    hide Inv, Step, SubmitOrder, LockFunds, PlaceOrder, Agrees, Match, LocksExact, OnlyOrdersSpend;
    IdsMatch(s);
    ExactPlaced(s, p, Routed, [OrderPlaced(p), OrderAccepted(p.id), OrderRouted(p.id, p.symbol)]);
    AcceptedAgrees(s, p);
    AcceptedSettles(s, p);
    PlaceUnfolds(s, p);
    TradesAre(s, p);
    var sub := SubmitOrder(s.books, s.seen, p.symbol, p.side, Entry(NewOrder(p)));
    ExactRouted(DeskFor(s, p), BooksWith(s.books, NewOrder(p).(status := Routed)), p.symbol, sub.remain);
    StepOfPlace(s, p);
  }

  lemma StepOfPlace(s: State, p: Placement)
    ensures Step(s, Place(p)) == PlaceOrder(s, p)
  {
  }

  lemma IdsMatch(s: State)
    requires Inv(s)
    ensures forall id :: id in s.repo.orders ==> s.repo.orders[id].id == id
    ensures forall id :: id in s.repo.ids <==> id in s.repo.orders
  {
    forall id | id in s.repo.orders ensures s.repo.orders[id].id == id { assert OrderOk(id, s.repo.orders[id]); }
  }

  lemma TradesAre(s: State, p: Placement)
    requires Inv(s) && p.id !in s.repo.orders
    ensures var sub := SubmitOrder(s.books, s.seen, p.symbol, p.side, Entry(NewOrder(p)));
      && sub.trades == TradesOf(s, p)
        == Match(p.symbol, BookOf(BooksWith(s.books, NewOrder(p).(status := Routed)), p.symbol)).trades
      && forall e :: e in sub.remain ==> e.OrderRemainOnBook?
  {
    var o := NewOrder(p).(status := Routed);
    assert Entry(o) == Entry(NewOrder(p));
  }

  lemma ExactRouted(d: Desk, books: map<Symbol, Book>, sym: Symbol, remain: seq<Event>)
    requires Agrees(d.accounts, d.repo, books)
    requires LocksExact(d.accounts, d.repo.orders, d.log) && OnlyOrdersSpend(d.repo.orders, d.log) && d.fills == []
    requires forall e :: e in remain ==> e.OrderRemainOnBook?
    ensures ApplyTrades(d, Match(sym, BookOf(books, sym)).trades).Done?
    ensures var x := ApplyTrades(d, Match(sym, BookOf(books, sym)).trades).value;
      LocksExact(x.accounts, x.repo.orders, x.log + remain + x.fills) &&
        OnlyOrdersSpend(x.repo.orders, x.log + remain + x.fills)
  {
    hide Agrees;
    var ts := Match(sym, BookOf(books, sym)).trades;
    LoopExact(d, books, sym);
    TradesSpend(d, ts);
    DeskFills(d, ts);
    FillsAreInformational(d, ts);
    var x := ApplyTrades(d, ts).value;
    assert x.fills == FillEvents(d, ts);
    Assoc(x.log, remain, x.fills);
    QuietExact(x.accounts, x.accounts, x.repo.orders, x.log, remain + x.fills);
    QuietSpend(x.repo.orders, x.repo.orders, x.log, remain + x.fills);
  }

  lemma {:induction false} ExactStep(s: State, c: Command)
    requires Inv(s) && Exact(s) && Positive(c) && Sane(c) && (c.Place? ==> c.placement.id !in s.repo.ids)
    ensures Step(s, c).Done? && Exact(Step(s, c).value)
  {
    match c
    case Place(p) =>
      if Accepts(s, p) { ExactAccepted(s, p); }
      else {
        assert forall id :: id in s.repo.orders ==> OrderOk(id, s.repo.orders[id]);
        var r := NewEvents(s, c)[1];
        ExactPlaced(s, p, Rejected, [OrderPlaced(p), r]);
        StepLog(s, c);
      }
    case Cancel(id) => ExactCancel(s, id);
    case _ => ExactFunds(s, c);
  }

  /**
   * The lock ledger, exactly: after any sane run the lock of every BUY order that was accepted and not canceled
   * holds its limit times its quantity less what the log says it paid. A filled order keeps that residue: the
   * saving from better prices stays locked.
   */
  lemma {:induction false} LocksAreExact(cmds: seq<Command>)
    requires WellFormed(cmds) && SaneRun(cmds)
    ensures Exec(cmds).Done? && Exact(Exec(cmds).value)
  {
    RunsAgree(cmds);
    if cmds != [] {
      var init, c := cmds[..|cmds| - 1], cmds[|cmds| - 1];
      assert cmds == init + [c];
      NextCommand(init, c);
      RunsAgree(init);
      LocksAreExact(init);
      ExactStep(Exec(init).value, c);
    }
  }

  /**
   * Stranded cash: a filled BUY order's residue can never come back. Whatever the next command, the order stays
   * filled and its lock keeps holding the same amount.
   */
  lemma {:induction false} ResidueIsStranded(cmds: seq<Command>, c: Command, id: OrderId)
    requires WellFormed(cmds + [c]) && SaneRun(cmds + [c])
    requires Exec(cmds).Done? && id in Exec(cmds).value.repo.orders
    requires Exec(cmds).value.repo.orders[id].status == Status.Filled && Exec(cmds).value.repo.orders[id].side == Buy
    ensures Exec(cmds + [c]).Done?
    ensures var s, s' := Exec(cmds).value, Exec(cmds + [c]).value;
      && id in s'.repo.orders && s'.repo.orders[id].status == Status.Filled
      && var a := s.repo.orders[id].account;
      && id in s.accounts.Get(a).locks && id in s'.accounts.Get(a).locks
      && s'.accounts.Get(a).locks[id].cash == s.accounts.Get(a).locks[id].cash
        == Value(s.repo.orders[id].Limit(), s.repo.orders[id].qty) - Spent(s.log, id)
  {
    NextCommand(cmds, c);
    RunsAgree(cmds);
    LocksAreExact(cmds);
    LocksAreExact(cmds + [c]);
    RunsAgree(cmds + [c]);
    assert (cmds + [c])[..|cmds|] == cmds;
    var s := Exec(cmds).value;
    StrandedStep(s, c, id);
  }

  /** A filled order takes no part in any later trade. */
  lemma {:induction false} StrandedStep(s: State, c: Command, id: OrderId)
    requires Inv(s) && Exact(s) && Positive(c) && Sane(c) && (c.Place? ==> c.placement.id !in s.repo.ids)
    requires id in s.repo.orders && s.repo.orders[id].status == Status.Filled && s.repo.orders[id].side == Buy
    requires Step(s, c).Done? && Inv(Step(s, c).value) && Exact(Step(s, c).value)
    ensures var s' := Step(s, c).value;
      && id in s'.repo.orders && s'.repo.orders[id].status == Status.Filled
      && var a := s.repo.orders[id].account;
      && id in s.accounts.Get(a).locks && id in s'.accounts.Get(a).locks
      && s'.accounts.Get(a).locks[id].cash == s.accounts.Get(a).locks[id].cash
        == Value(s.repo.orders[id].Limit(), s.repo.orders[id].qty) - Spent(s.log, id)
  {
    hide Value, Step, Inv;
    IdsMatch(s);
    StepKeepsTerms(s, c);
    FilledStays(s, c, id);
    assert !Live(s.repo.orders[id]);
    NoMoreCharges(s, c, id);
    var s' := Step(s, c).value;
    ExactRead(s, id);
    ExactRead(s', id);
  }

  lemma ExactRead(s: State, id: OrderId)
    requires Exact(s) && id in s.repo.orders && s.repo.orders[id].id == id
    requires s.repo.orders[id].side == Buy && HoldsLock(s.repo.orders[id])
    ensures id in s.accounts.Get(s.repo.orders[id].account).locks
    ensures s.accounts.Get(s.repo.orders[id].account).locks[id].cash ==
      Value(s.repo.orders[id].Limit(), s.repo.orders[id].qty) - Spent(s.log, id)
  {
    hide Value;
    assert LockExact(s.accounts, s.repo.orders[id], Spent(s.log, id));
  }

  lemma TradeKeepsFilled(d: Desk, t: Trade, id: OrderId)
    requires ApplyTrade(d, t).Done? && id in d.repo.orders && d.repo.orders[id].status == Status.Filled
    ensures id in ApplyTrade(d, t).value.repo.orders && ApplyTrade(d, t).value.repo.orders[id].status == Status.Filled
  {
    hide TrySettle;
  }

  lemma {:induction false} TradesKeepFilled(d: Desk, ts: seq<Trade>, id: OrderId)
    requires ApplyTrades(d, ts).Done? && id in d.repo.orders && d.repo.orders[id].status == Status.Filled
    ensures id in ApplyTrades(d, ts).value.repo.orders &&
      ApplyTrades(d, ts).value.repo.orders[id].status == Status.Filled
    decreases |ts|
  {
    if ts != [] {
      hide ApplyTrade;
      TradeKeepsFilled(d, ts[0], id);
      TradesKeepFilled(ApplyTrade(d, ts[0]).value, ts[1..], id);
    }
  }

  lemma FilledStays(s: State, c: Command, id: OrderId)
    requires Step(s, c).Done? && (c.Place? ==> c.placement.id !in s.repo.orders)
    requires id in s.repo.orders && s.repo.orders[id].status == Status.Filled
    ensures id in Step(s, c).value.repo.orders && Step(s, c).value.repo.orders[id].status == Status.Filled
  {
    if c.Place? && Accepts(s, c.placement) {
      PlaceUnfolds(s, c.placement);
      TradesKeepFilled(DeskFor(s, c.placement), TradesOf(s, c.placement), id);
    }
  }

  lemma {:induction false} TradeEventsTrades(repo: Repo, ts: seq<Trade>)
    ensures forall e :: e in TradeEvents(repo, ts) && e.TradeExecuted? ==> e.trade in ts
    decreases |ts|
  {
    if ts != [] { TradeEventsTrades(repo, ts[1..]); }
  }

  lemma NoMoreCharges(s: State, c: Command, id: OrderId)
    requires Inv(s) && Positive(c) && Sane(c) && (c.Place? ==> c.placement.id !in s.repo.ids) && Step(s, c).Done?
    requires id in s.repo.orders && !Live(s.repo.orders[id])
    ensures Spent(Step(s, c).value.log, id) == Spent(s.log, id)
  {
    hide Inv;
    StepLog(s, c);
    SpentAppend(s.log, NewEvents(s, c), id);
    if c.Place? && Accepts(s, c.placement) { PlacementCharges(s, c.placement, id); }
    else { NothingSpent(NewEvents(s, c), id); }
  }

  lemma OnlyRemainders(s: State, p: Placement)
    ensures forall e ::
      e in SubmitOrder(s.books, s.seen, p.symbol, p.side, Entry(NewOrder(p))).remain ==> e.OrderRemainOnBook?
  {
  }

  lemma {:induction false} PlacementCharges(s: State, p: Placement, id: OrderId)
    requires Inv(s) && p.id !in s.repo.ids && p.qty > 0.0 && SaneShape(p.side, p.otype, p.price) && Accepts(s, p)
    requires id in s.repo.orders && !Live(s.repo.orders[id])
    ensures Spent(NewEvents(s, Place(p)), id) == 0.0
  {
    hide Inv, SubmitOrder, NewEvents, TradesOf, TradeEvents, FillEvents, DeskFor, LockFunds, SaneShape;
    IdsMatch(s);
    TradersAlive(s, p, {id});
    AcceptedEvents(s, p);
    OnlyRemainders(s, p);
    var d := DeskFor(s, p);
    var sub := SubmitOrder(s.books, s.seen, p.symbol, p.side, Entry(NewOrder(p)));
    TradeEventsTrades(d.repo, sub.trades);
    FillsAreInformational(d, sub.trades);
    NothingSpent(NewEvents(s, Place(p)), id);
  }
}

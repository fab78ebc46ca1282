/** Order-against-market mode is safe: exact locks, no overdraft, and nothing left fillable after a scan. */
module MarketRuns {
  import opened Domain
  import opened Sums
  import opened Ledger
  import opened LedgerLaws
  import opened Orders
  import opened Exchange
  import opened Agreement
  import opened Settling
  import opened Runs
  import opened MarketMode

  // ---------- what a fill does to an account ----------

  /** Shares arrive and are paid for out of the available cash. */
  function Bought(x: Account, sym: Symbol, paid: real, qty: real): Account {
    var p := x.Pos(sym);
    x.SetPos(sym, p.(avail := p.avail + qty, cost := p.cost + paid)).(cashAvail := x.cashAvail - paid)
  }

  function BuyFromCash(x: Account, sym: Symbol, price: real, qty: real): Account {
    Bought(x, sym, Value(price, qty), qty)
  }

  /** Giving available shares for cash. */
  function SellShares(x: Account, sym: Symbol, price: real, qty: real): Account {
    var p := x.Pos(sym).(avail := x.Pos(sym).avail - qty);
    x.SetPos(sym, p.(cost := CostAfterSale(p, qty))).(cashAvail := x.cashAvail + Value(price, qty))
  }

  /** A BUY fill consumes exactly its lock: it is as if the lock were released and the trade paid for from the cash. */
  lemma BuyIsReleaseThenPay(x: Account, id: OrderId, sym: Symbol, price: real, qty: real)
    requires id in x.locks && x.locks[id].side == Buy && Value(price, qty) <= x.locks[id].cash
    ensures MarketBuy(x, id, sym, price, qty) == BuyFromCash(Release(x, id), sym, price, qty)
  {
    hide Value;
  }

  /** A SELL fill likewise. */
  lemma SellIsReleaseThenSell(x: Account, id: OrderId, sym: Symbol, price: real, qty: real)
    requires id in x.locks && x.locks[id].side == Sell && x.locks[id].symbol == sym && x.locks[id].qty == qty
    ensures MarketSell(x, id, sym, price, qty) == SellShares(Release(x, id), sym, price, qty)
  {
    hide Value, CostAfterSale;
    var p := x.Pos(sym);
    var p1 := p.(locked := p.locked - qty, avail := p.avail + qty);
    var p2 := p1.(avail := p1.avail - qty);
    assert p2 == p.(locked := p.locked - qty);
    var c := CostAfterSale(p2, qty);
    assert x.positions[sym := p1][sym := p2.(cost := c)] == x.positions[sym := p2.(cost := c)];
  }

  lemma BoughtKeepsBalance(x: Account, sym: Symbol, paid: real, qty: real)
    requires Balanced(x) && 0.0 <= paid <= x.cashAvail && qty > 0.0
    ensures Balanced(Bought(x, sym, paid, qty))
  {
    var x' := Bought(x, sym, paid, qty);
    forall asset ensures AssetOk(asset, x') { assert AssetOk(asset, x); }
    BalancedNonNegative(x, Shares(sym));
    forall s ensures CostOk(x'.Pos(s)) { assert CostOk(x.Pos(s)); }
  }

  lemma SellSharesKeepsBalance(x: Account, sym: Symbol, price: real, qty: real)
    requires Balanced(x) && Value(price, qty) >= 0.0 && 0.0 < qty <= x.Pos(sym).avail
    ensures Balanced(SellShares(x, sym, price, qty))
  {
    hide Value, CostAfterSale;
    var x' := SellShares(x, sym, price, qty);
    forall asset ensures AssetOk(asset, x') { assert AssetOk(asset, x); }
    BalancedNonNegative(x, Shares(sym));
    assert CostOk(x.Pos(sym));
    CostAfterSaleOk(x.Pos(sym).(avail := x.Pos(sym).avail - qty), qty);
    forall s ensures CostOk(x'.Pos(s)) { assert CostOk(x.Pos(s)); }
  }

  // ---------- the invariant ----------

  predicate MarketOrderOk(id: OrderId, o: Order) {
    && o.id == id && o.qty > 0.0
    && (match o.status
        case Routed => o.filled == 0.0
        case Filled => o.filled == o.qty
        case Canceled => o.filled == 0.0
        case Rejected => o.filled == 0.0
        case _ => false)
    && (o.side == Buy ==> SaneShape(o.side, o.otype, o.price))
    && (o.side == Buy && o.status != Rejected ==> o.price.Some?)
  }

  /** The one lock an open order has: all of it, since nothing fills in part. */
  function WholeLock(o: Order): Lock {
    Lock(o.side, o.symbol, if o.side == Buy then Value(o.Limit(), o.qty) else 0.0, o.qty)
  }

  /** Open orders hold their whole lock, and there are no other locks. */
  ghost predicate WholeLocks(l: Accounts, orders: map<OrderId, Order>) {
    && (forall a, id :: id in l.Get(a).locks ==>
          id in orders && orders[id].account == a && orders[id].status == Routed &&
            l.Get(a).locks[id] == WholeLock(orders[id]))
    && (forall id :: id in orders && orders[id].status == Routed ==> id in l.Get(orders[id].account).locks)
  }

  ghost predicate MarketRepoOk(repo: Repo) {
    && (forall i, j :: 0 <= i < j < |repo.ids| ==> repo.ids[i] != repo.ids[j])
    && (forall id :: id in repo.ids <==> id in repo.orders)
    && (forall id :: id in repo.orders ==> MarketOrderOk(id, repo.orders[id]))
  }

  ghost predicate MarketLedgerOk(l: Accounts, orders: map<OrderId, Order>) {
    AccountsOk(l) && (forall a :: Balanced(l.Get(a))) && WholeLocks(l, orders)
  }

  ghost predicate MarketInv(m: Venue) { MarketRepoOk(m.repo) && MarketLedgerOk(m.accounts, m.repo.orders) }

  /** The ledger after one account changed, and in it at most the lock of one order. */
  lemma {:induction false} OneLockChanged(l: Accounts, orders: map<OrderId, Order>, x: Account, o: Order)
    requires MarketLedgerOk(l, orders) && Balanced(x)
    requires o.id in orders ==> orders[o.id].account == o.account
    requires forall id :: id != o.id ==> (id in x.locks <==> id in l.Get(o.account).locks)
    requires forall id :: id != o.id && id in x.locks ==> x.locks[id] == l.Get(o.account).locks[id]
    requires o.id in x.locks <==> o.status == Routed
    requires o.id in x.locks ==> x.locks[o.id] == WholeLock(o)
    ensures MarketLedgerOk(l.Put(o.account, x), orders[o.id := o])
  {
    PutKeeps(l, o.account, x);
    hide Balanced, AccountsOk, WholeLock;
    var l' := l.Put(o.account, x);
    assert l'.Get(o.account) == x && forall a :: a != o.account ==> l'.Get(a) == l.Get(a);
    forall a ensures Balanced(l'.Get(a)) { assert Balanced(l.Get(a)); }
    OneWholeLock(l, l', orders, x, o);
  }

  lemma OneWholeLock(l: Accounts, l': Accounts, orders: map<OrderId, Order>, x: Account, o: Order)
    requires WholeLocks(l, orders)
    requires l'.Get(o.account) == x && forall a :: a != o.account ==> l'.Get(a) == l.Get(a)
    requires o.id in orders ==> orders[o.id].account == o.account
    requires forall id :: id != o.id ==> (id in x.locks <==> id in l.Get(o.account).locks)
    requires forall id :: id != o.id && id in x.locks ==> x.locks[id] == l.Get(o.account).locks[id]
    requires o.id in x.locks <==> o.status == Routed
    requires o.id in x.locks ==> x.locks[o.id] == WholeLock(o)
    ensures WholeLocks(l', orders[o.id := o])
  {
    hide WholeLock;
  }

  lemma OneOrderChanged(repo: Repo, o: Order)
    requires MarketRepoOk(repo) && o.id in repo.orders && MarketOrderOk(o.id, o)
    ensures MarketRepoOk(Repo(repo.ids, repo.orders[o.id := o]))
  {
  }

  // ---------- filling ----------

  /** The fill of an open order at a quote it meets. */
  lemma LegKeepsBalance(l: Accounts, orders: map<OrderId, Order>, o: Order, price: real)
    requires MarketLedgerOk(l, orders) && o.id in orders && orders[o.id] == o && MarketOrderOk(o.id, o) &&
      o.status == Routed
    requires 0.0 < price && (o.side == Buy ==> price <= o.Limit())
    ensures var x := MarketLeg(l.Get(o.account), o.id, o.symbol, o.side, price, o.qty);
      Balanced(x) && x.locks == l.Get(o.account).locks - {o.id}
  {
    var x := l.Get(o.account);
    assert x.locks[o.id] == WholeLock(o);
    ReleaseKeepsBalance(x, o.id);
    ValueNonNegative(price, o.qty);
    if o.side == Buy {
      CostWithinLock(price, o.Limit(), o.qty);
      ReserveBound(x, Cash, o.id);
      assert AssetOk(Cash, x);
      hide Value;
      BuyIsReleaseThenPay(x, o.id, o.symbol, price, o.qty);
      BoughtKeepsBalance(Release(x, o.id), o.symbol, Value(price, o.qty), o.qty);
    } else {
      ReserveBound(x, Shares(o.symbol), o.id);
      assert AssetOk(Shares(o.symbol), x);
      SellIsReleaseThenSell(x, o.id, o.symbol, price, o.qty);
      SellSharesKeepsBalance(Release(x, o.id), o.symbol, price, o.qty);
    }
  }

  lemma CostWithinLock(price: real, limit: real, qty: real)
    requires price <= limit && qty > 0.0
    ensures Value(price, qty) <= Value(limit, qty)
  {
    assert (limit - price) * qty >= 0.0;
  }

  function Closed(o: Order): Order { o.(status := Status.Filled, filled := o.qty) }

  /** A fill closes exactly that order and keeps the invariant; an order the quote does not meet stays as it is. */
  lemma {:induction false} FillKeepsInv(m: Venue, id: OrderId, q: Quote)
    requires MarketInv(m) && id in m.repo.orders && m.repo.orders[id].status == Routed
    ensures TryFill(m, id, q).Done? && MarketInv(TryFill(m, id, q).value)
    ensures var m' := TryFill(m, id, q).value;
      m'.quotes == m.quotes && m'.repo.ids == m.repo.ids &&
      m'.repo.orders == if Fillable(m.repo.orders[id], q) then m.repo.orders[id := Closed(m.repo.orders[id])]
        else m.repo.orders
  {
    hide *;
    var o := m.repo.orders[id];
    InvParts(m, id);
    FillUnfolds(m, o, q);
    if Fillable(o, q) {
      var price := QuotedPrice(o.side, q);
      PriceMet(o, q);
      LegKeepsBalance(m.accounts, m.repo.orders, o, price);
      OneOrderChanged(m.repo, Closed(o));
      FilledLedger(m.accounts, m.repo.orders, o, price);
      InvFrom(TryFill(m, id, q).value);
    }
  }

  lemma InvParts(m: Venue, id: OrderId)
    requires MarketInv(m) && id in m.repo.orders
    ensures MarketRepoOk(m.repo) && MarketLedgerOk(m.accounts, m.repo.orders)
    ensures MarketOrderOk(id, m.repo.orders[id]) && m.repo.orders[id].id == id
    ensures MarketOrderOk(id, Closed(m.repo.orders[id])) || m.repo.orders[id].status != Routed
    ensures Closed(m.repo.orders[id]).id == id
  {
  }

  lemma InvFrom(m: Venue)
    requires MarketRepoOk(m.repo) && MarketLedgerOk(m.accounts, m.repo.orders)
    ensures MarketInv(m)
  {
  }

  lemma PriceMet(o: Order, q: Quote)
    requires MarketOrderOk(o.id, o) && o.status == Routed && Fillable(o, q)
    ensures 0.0 < QuotedPrice(o.side, q) && (o.side == Buy ==> QuotedPrice(o.side, q) <= o.Limit())
  {
  }

  /** An open order is filled whole or not at all. */
  lemma FillUnfolds(m: Venue, o: Order, q: Quote)
    requires o.id in m.repo.orders && m.repo.orders[o.id] == o && o.status == Routed && MarketOrderOk(o.id, o)
    ensures !Fillable(o, q) ==> TryFill(m, o.id, q) == Done(m)
    ensures Fillable(o, q) ==>
      && TryFill(m, o.id, q).Done?
      && var m' := TryFill(m, o.id, q).value;
      && m'.accounts == SettleMarket(m.accounts, o.account, o.id, o.symbol, o.side, QuotedPrice(o.side, q), o.qty)
      && m'.repo == Repo(m.repo.ids, m.repo.orders[o.id := Closed(o)]) && m'.quotes == m.quotes
      && m'.log == m.log + [TradeExecuted(MarketTrade(o, q)), FillEvent(Closed(o), o.qty)]
  {
    hide SettleMarket, Fillable;
  }

  lemma {:induction false} FilledLedger(l: Accounts, orders: map<OrderId, Order>, o: Order, price: real)
    requires MarketLedgerOk(l, orders) && o.id in orders && orders[o.id] == o && o.status == Routed
    requires var x := MarketLeg(l.Get(o.account), o.id, o.symbol, o.side, price, o.qty);
      Balanced(x) && x.locks == l.Get(o.account).locks - {o.id}
    ensures MarketLedgerOk(SettleMarket(l, o.account, o.id, o.symbol, o.side, price, o.qty), orders[o.id := Closed(o)])
  {
    hide MarketLeg, Balanced;
    OneLockChanged(l, orders, MarketLeg(l.Get(o.account), o.id, o.symbol, o.side, price, o.qty), Closed(o));
  }

  // ---------- scanning ----------

  /** What a scan makes of the orders: those of the symbol that are open and meet the quote are closed. */
  function AfterScan(o: Order, sym: Symbol, q: Quote): Order {
    if o.symbol == sym && o.status == Routed && Fillable(o, q) then Closed(o) else o
  }

  /** The orders of the ids have been gone through, the others not. */
  ghost predicate ScanDone(before: map<OrderId, Order>, after: map<OrderId, Order>, ids: seq<OrderId>, sym: Symbol,
                           q: Quote) {
    && before.Keys == after.Keys
    && forall id :: id in before ==> after[id] == if id in ids then AfterScan(before[id], sym, q) else before[id]
  }

  /** What a scan does with one order. */
  lemma {:induction false} ScanFirst(m: Venue, id: OrderId, sym: Symbol, q: Quote) returns (m1: Venue)
    requires MarketInv(m) && id in m.repo.orders
    ensures if Scanned(m.repo.orders[id], sym) then TryFill(m, id, q) == Done(m1) else m1 == m
    ensures MarketInv(m1) && m1.quotes == m.quotes && m1.repo.ids == m.repo.ids
    ensures m1.repo.orders == m.repo.orders[id := AfterScan(m.repo.orders[id], sym, q)]
  {
    m1 := m;
    if Scanned(m.repo.orders[id], sym) {
      InvParts(m, id);
      FillKeepsInv(m, id, q);
      hide MarketInv, TryFill, Fillable;
      m1 := TryFill(m, id, q).value;
    }
  }

  /**
   * A scan fills exactly the open orders of the symbol that meet the quote, keeps every other order, and never
   * raises.
   */
  lemma {:induction false} ScanKeepsInv(m: Venue, ids: seq<OrderId>, sym: Symbol, q: Quote)
    requires MarketInv(m) && forall id :: id in ids ==> id in m.repo.orders
    ensures ScanOrders(m, ids, sym, q).Done? && MarketInv(ScanOrders(m, ids, sym, q).value)
    ensures var m' := ScanOrders(m, ids, sym, q).value;
      m'.quotes == m.quotes && m'.repo.ids == m.repo.ids && ScanDone(m.repo.orders, m'.repo.orders, ids, sym, q)
    decreases |ids|
  {
    if ids != [] {
      hide MarketInv, TryFill, Scanned, ScanDone, AfterScan;
      assert ids == [ids[0]] + ids[1..];
      var m1 := ScanFirst(m, ids[0], sym, q);
      ScanKeepsInv(m1, ids[1..], sym, q);
      var m' := ScanOrders(m1, ids[1..], sym, q).value;
      ScanOneMore(m.repo.orders, m1.repo.orders, m'.repo.orders, ids, sym, q);
    }
  }

  lemma ScanOneMore(before: map<OrderId, Order>, next: map<OrderId, Order>, after: map<OrderId, Order>,
                    ids: seq<OrderId>, sym: Symbol, q: Quote)
    requires ids != [] && ids[0] in before && next == before[ids[0] := AfterScan(before[ids[0]], sym, q)]
    requires ScanDone(next, after, ids[1..], sym, q)
    ensures ScanDone(before, after, ids, sym, q)
  {
    assert forall id :: id in ids <==> id == ids[0] || id in ids[1..];
    assert AfterScan(AfterScan(before[ids[0]], sym, q), sym, q) == AfterScan(before[ids[0]], sym, q);
  }

  /** No open order of the symbol meets its last quote. */
  predicate NothingFillable(m: Venue, sym: Symbol) {
    sym in m.quotes ==>
      forall id :: id in m.repo.orders && m.repo.orders[id].symbol == sym && Live(m.repo.orders[id]) ==>
        !Fillable(m.repo.orders[id], m.quotes[sym])
  }

  lemma TickKeepsInv(m: Venue, sym: Symbol, q: Quote)
    requires MarketInv(m)
    ensures MarketStep(m, Tick(sym, q)).Done? && MarketInv(MarketStep(m, Tick(sym, q)).value)
    ensures var m' := MarketStep(m, Tick(sym, q)).value;
      && m'.repo.ids == m.repo.ids && m'.quotes == m.quotes[sym := q] && NothingFillable(m', sym)
      && m'.repo.orders == map id | id in m.repo.orders :: AfterScan(m.repo.orders[id], sym, q)
  {
    var m0 := m.(quotes := m.quotes[sym := q]);
    assert MarketInv(m0);
    ScanKeepsInv(m0, m.repo.ids, sym, q);
    ScannedAll(m.repo, MarketStep(m, Tick(sym, q)).value.repo.orders, sym, q);
    hide MarketInv, ScanOrders, AfterScan, Fillable;
  }

  lemma ScannedAll(repo: Repo, after: map<OrderId, Order>, sym: Symbol, q: Quote)
    requires MarketRepoOk(repo) && ScanDone(repo.orders, after, repo.ids, sym, q)
    ensures after == map id | id in repo.orders :: AfterScan(repo.orders[id], sym, q)
    ensures forall id :: id in after && after[id].symbol == sym && Live(after[id]) ==> !Fillable(after[id], q)
  {
    hide Fillable;
    forall id | id in after && after[id].symbol == sym && Live(after[id]) ensures !Fillable(after[id], q) {
      assert MarketOrderOk(id, repo.orders[id]);
    }
  }

  // ---------- the other commands ----------

  /** The invariant holds, nothing was refused, and quotes and orders other than this one are as they were. */
  ghost predicate Placed(m: Venue, r: Outcome<Venue>, id: OrderId) {
    && r.Done? && MarketInv(r.value) && r.value.quotes == m.quotes
    && id in r.value.repo.orders && r.value.repo.orders == m.repo.orders[id := r.value.repo.orders[id]]
  }

  lemma IntakeKeepsInv(m: Venue, p: Placement)
    requires MarketInv(m) && p.id !in m.repo.orders && Admissible(User(Place(p)))
    ensures Placed(m, Done(AfterMarketIntake(m, p)), p.id)
    ensures AfterMarketIntake(m, p).repo.orders[p.id].status in {Routed, Rejected}
  {
    hide Balanced, LockIn, WholeLock, MarketLedgerOk, MarketRepoOk, MarketOrderOk;
    var x := m.accounts.Get(p.account);
    var r := LockIn(x, p.id, p.symbol, p.side, p.qty, p.price);
    var o := NewOrder(p).(status := if r.rejected.Some? then Rejected else Routed);
    NotLockedYet(m, p.account, p.id);
    LockKeepsBalance(x, p.id, p.symbol, p.side, p.qty, p.price);
    LockedWhole(x, p, o);
    OneLockChanged(m.accounts, m.repo.orders, r.account, o);
    NewOrderRepo(m.repo, o);
  }

  lemma NotLockedYet(m: Venue, a: AccountId, id: OrderId)
    requires MarketInv(m) && id !in m.repo.orders
    ensures id !in m.accounts.Get(a).locks && Balanced(m.accounts.Get(a))
  {
    hide Balanced;
  }

  lemma LockedWhole(x: Account, p: Placement, o: Order)
    requires p.id !in x.locks && Admissible(User(Place(p)))
    requires var r := LockIn(x, p.id, p.symbol, p.side, p.qty, p.price);
      o == NewOrder(p).(status := if r.rejected.Some? then Rejected else Routed)
    ensures var r := LockIn(x, p.id, p.symbol, p.side, p.qty, p.price);
      r.account.locks == if r.rejected.Some? then x.locks else x.locks[p.id := WholeLock(o)]
    ensures MarketOrderOk(p.id, o)
  {
    hide Value;
  }

  lemma NewOrderRepo(repo: Repo, o: Order)
    requires MarketRepoOk(repo) && o.id !in repo.orders && MarketOrderOk(o.id, o)
    ensures MarketRepoOk(repo.Add(o))
  {
  }

  lemma {:induction false} MarketPlaceKeepsInv(m: Venue, p: Placement)
    requires MarketInv(m) && p.id !in m.repo.orders && Admissible(User(Place(p)))
    ensures Placed(m, MarketStep(m, User(Place(p))), p.id)
    ensures var o := MarketStep(m, User(Place(p))).value.repo.orders[p.id];
      p.symbol in m.quotes && o.status == Routed ==> !Fillable(o, m.quotes[p.symbol])
    ensures MarketStep(m, User(Place(p))).value.repo.orders[p.id].symbol == p.symbol
  {
    hide MarketInv, Fillable, AfterMarketIntake, TryFill, Admissible;
    var m1 := AfterMarketIntake(m, p);
    IntakeKeepsInv(m, p);
    IntakeSymbol(m, p);
    if m1.repo.orders[p.id].status == Routed && p.symbol in m.quotes {
      FillKeepsInv(m1, p.id, m.quotes[p.symbol]);
    }
  }

  lemma IntakeSymbol(m: Venue, p: Placement)
    ensures AfterMarketIntake(m, p).repo.orders[p.id].symbol == p.symbol
  {
  }

  lemma {:induction false} MarketCancelKeepsInv(m: Venue, id: OrderId)
    requires MarketInv(m)
    ensures var r := MarketStep(m, User(Cancel(id)));
      && r.Done? && MarketInv(r.value) && r.value.quotes == m.quotes
      && r.value.repo.orders ==
        if id in m.repo.orders && m.repo.orders[id].status == Routed
        then m.repo.orders[id := m.repo.orders[id].(status := Canceled)]
        else m.repo.orders
  {
    if id in m.repo.orders {
      var o := m.repo.orders[id];
      InvParts(m, id);
      if o.status == Routed {
        CanceledLedger(m.accounts, m.repo.orders, o);
        OneOrderChanged(m.repo, o.(status := Canceled));
      }
    }
    hide MarketLedgerOk, MarketRepoOk, Release;
  }

  lemma CanceledLedger(l: Accounts, orders: map<OrderId, Order>, o: Order)
    requires MarketLedgerOk(l, orders) && o.id in orders && orders[o.id] == o && o.status == Routed
    ensures MarketLedgerOk(Unlock(l, o.account, o.id), orders[o.id := o.(status := Canceled)])
  {
    assert Balanced(l.Get(o.account));
    ReleaseKeepsBalance(l.Get(o.account), o.id);
    hide Balanced;
    OneLockChanged(l, orders, Release(l.Get(o.account), o.id), o.(status := Canceled));
  }

  lemma MarketFundsKeepInv(m: Venue, c: Command)
    requires MarketInv(m) && Positive(c) && (c.CashIn? || c.CashOut? || c.SharesIn?)
    ensures var r := MarketStep(m, User(c));
      r.Done? && MarketInv(r.value) && r.value.quotes == m.quotes && r.value.repo == m.repo
  {
    var x := m.accounts.Get(c.account);
    assert Balanced(x) && AssetOk(Cash, x);
    var x' := FundsAfter(x, c);
    if c.SharesIn? { SeedKeepsBalance(m.accounts, c.account, c.symbol, c.qty); }
    else { CashChangeKeepsBalance(x, x'.cashAvail); }
    FundsStep(Core(m), c);
    SameLocks(m.accounts, m.repo.orders, c.account, x');
    hide MarketLedgerOk, MarketRepoOk, Step, FundsAfter;
  }

  lemma {:induction false} SameLocks(l: Accounts, orders: map<OrderId, Order>, a: AccountId, x: Account)
    requires MarketLedgerOk(l, orders) && Balanced(x) && x.locks == l.Get(a).locks
    ensures MarketLedgerOk(l.Put(a, x), orders)
  {
    PutKeeps(l, a, x);
    hide Balanced, AccountsOk, WholeLock;
    var l' := l.Put(a, x);
    forall b ensures Balanced(l'.Get(b)) && l'.Get(b).locks == l.Get(b).locks {
      assert Balanced(l.Get(b));
      assert b != a ==> l'.Get(b) == l.Get(b);
    }
    SameWholeLocks(l, l', orders);
  }

  lemma SameWholeLocks(l: Accounts, l': Accounts, orders: map<OrderId, Order>)
    requires WholeLocks(l, orders) && forall b :: l'.Get(b).locks == l.Get(b).locks
    ensures WholeLocks(l', orders)
  {
    hide WholeLock;
  }

  // ---------- whole runs ----------

  /** No open order of any quoted symbol meets the last quote of its symbol. */
  ghost predicate AllMet(m: Venue) { forall sym :: NothingFillable(m, sym) }

  lemma MarketStepKeepsInv(m: Venue, c: MarketCommand)
    requires MarketInv(m) && Admissible(c) && (IsPlace(c) ==> PlacedBy(c) !in m.repo.orders)
    ensures MarketStep(m, c).Done? && MarketInv(MarketStep(m, c).value)
    ensures forall id ::
      id in MarketStep(m, c).value.repo.orders ==> id in m.repo.orders || (IsPlace(c) && PlacedBy(c) == id)
    ensures AllMet(m) && !c.Fetch? ==> AllMet(MarketStep(m, c).value)
  {
    hide MarketStep, MarketInv, AllMet, Positive, Sane;
    match c
    case Fetch(sym, q) => FetchKeepsInv(m, sym, q);
    case Tick(sym, q) => TickKeepsInv(m, sym, q); TickMeetsAll(m, sym, q);
    case User(d) =>
      match d
      case Place(p) => MarketPlaceKeepsInv(m, p); PlaceMeetsAll(m, p);
      case Cancel(id) => MarketCancelKeepsInv(m, id); CancelMeetsAll(m, id);
      case _ => MarketFundsKeepInv(m, d); FundsMeetAll(m, d);
  }

  lemma FetchKeepsInv(m: Venue, sym: Symbol, q: Quote)
    requires MarketInv(m)
    ensures var r := MarketStep(m, Fetch(sym, q)); r.Done? && MarketInv(r.value) && r.value.repo == m.repo
  {
  }

  lemma TickMeetsAll(m: Venue, sym: Symbol, q: Quote)
    requires MarketInv(m)
    ensures MarketStep(m, Tick(sym, q)).Done? && (AllMet(m) ==> AllMet(MarketStep(m, Tick(sym, q)).value))
  {
    TickKeepsInv(m, sym, q);
    hide Fillable, MarketStep, MarketInv;
    if AllMet(m) {
      forall y ensures NothingFillable(MarketStep(m, Tick(sym, q)).value, y) { assert NothingFillable(m, y); }
    }
  }

  lemma {:induction false} PlaceMeetsAll(m: Venue, p: Placement)
    requires MarketInv(m) && p.id !in m.repo.orders && Admissible(User(Place(p)))
    ensures MarketStep(m, User(Place(p))).Done? && (AllMet(m) ==> AllMet(MarketStep(m, User(Place(p))).value))
  {
    MarketPlaceKeepsInv(m, p);
    var m' := MarketStep(m, User(Place(p))).value;
    InvParts(m', p.id);
    hide Fillable, MarketStep, MarketInv;
    if AllMet(m) {
      forall y ensures NothingFillable(m', y) { assert NothingFillable(m, y); }
    }
  }

  lemma CancelMeetsAll(m: Venue, id: OrderId)
    requires MarketInv(m)
    ensures MarketStep(m, User(Cancel(id))).Done? && (AllMet(m) ==> AllMet(MarketStep(m, User(Cancel(id))).value))
  {
    hide Fillable, MarketStep, MarketInv;
    MarketCancelKeepsInv(m, id);
    if AllMet(m) {
      forall y ensures NothingFillable(MarketStep(m, User(Cancel(id))).value, y) { assert NothingFillable(m, y); }
    }
  }

  lemma {:induction false} FundsMeetAll(m: Venue, c: Command)
    requires MarketInv(m) && Positive(c) && (c.CashIn? || c.CashOut? || c.SharesIn?)
    ensures MarketStep(m, User(c)).Done? && (AllMet(m) ==> AllMet(MarketStep(m, User(c)).value))
  {
    MarketFundsKeepInv(m, c);
    hide Fillable, MarketStep, MarketInv;
    if AllMet(m) {
      forall y ensures NothingFillable(MarketStep(m, User(c)).value, y) { assert NothingFillable(m, y); }
    }
  }

  predicate PlacedIn(cs: seq<MarketCommand>, id: OrderId) {
    exists i :: 0 <= i < |cs| && IsPlace(cs[i]) && PlacedBy(cs[i]) == id
  }

  ghost predicate MarketRunOk(cs: seq<MarketCommand>, r: Outcome<Venue>) {
    && r.Done? && MarketInv(r.value) && (forall id :: id in r.value.repo.orders ==> PlacedIn(cs, id))
    && ((forall i :: 0 <= i < |cs| ==> !cs[i].Fetch?) ==> AllMet(r.value))
  }

  lemma MarketLast(cs: seq<MarketCommand>, c: MarketCommand)
    requires MarketExec(cs).Done?
    ensures MarketExec(cs + [c]) == MarketStep(MarketExec(cs).value, c)
  {
    hide MarketStep;
    assert (cs + [c])[..|cs|] == cs;
  }

  /**
   * Every run of this mode: no command is refused by the state machine, every open order holds exactly its
   * whole lock and there are no other locks, all accounts balance, and, unless quotes were fetched without a
   * scan, no open order meets the last quote of its symbol.
   */
  lemma {:induction false} MarketRunsAgree(cs: seq<MarketCommand>)
    requires MarketWellFormed(cs)
    ensures MarketRunOk(cs, MarketExec(cs))
  {
    if cs == [] {
      forall a ensures Balanced(NO_ACCOUNTS.Get(a)) { NewAccountBalanced(); }
    } else {
      var init, c := cs[..|cs| - 1], cs[|cs| - 1];
      assert forall i :: 0 <= i < |init| ==> init[i] == cs[i];
      MarketRunsAgree(init);
      var m := MarketExec(init).value;
      FreshNext(cs, m.repo.orders.Keys);
      hide MarketInv, MarketStep, AllMet, Admissible;
      MarketStepKeepsInv(m, c);
      KnownIds(cs, m.repo.orders.Keys, MarketStep(m, c).value.repo.orders.Keys);
    }
  }

  lemma FreshNext(cs: seq<MarketCommand>, known: set<OrderId>)
    requires cs != [] && MarketWellFormed(cs) && forall id :: id in known ==> PlacedIn(cs[..|cs| - 1], id)
    ensures var c := cs[|cs| - 1]; Admissible(c) && (IsPlace(c) ==> PlacedBy(c) !in known)
  {
  }

  lemma KnownIds(cs: seq<MarketCommand>, known: set<OrderId>, after: set<OrderId>)
    requires cs != [] && forall id :: id in known ==> PlacedIn(cs[..|cs| - 1], id)
    requires var c := cs[|cs| - 1]; forall id :: id in after ==> id in known || (IsPlace(c) && PlacedBy(c) == id)
    ensures forall id :: id in after ==> PlacedIn(cs, id)
  {
    forall id | id in after ensures PlacedIn(cs, id) {
      if id in known {
        var init := cs[..|cs| - 1];
        var i :| 0 <= i < |init| && IsPlace(init[i]) && PlacedBy(init[i]) == id;
        assert cs[i] == init[i];
      } else {
        assert IsPlace(cs[|cs| - 1]);
      }
    }
  }

  /** What the open orders of an account keep locked of an asset. */
  ghost function OpenReserves(orders: map<OrderId, Order>, a: AccountId, asset: Asset): map<OrderId, real> {
    map id | id in orders && orders[id].account == a && orders[id].status == Routed ::
      Reserve(asset, WholeLock(orders[id]))
  }

  /**
   * In every reachable state nothing is negative, and what is locked is the sum over the open orders: limit
   * times quantity of the BUY orders in cash, the quantity of the SELL orders in shares.
   */
  lemma MarketNoOverdraft(cs: seq<MarketCommand>, a: AccountId, asset: Asset)
    requires MarketWellFormed(cs)
    ensures MarketExec(cs).Done?
    ensures var x := MarketExec(cs).value.accounts.Get(a);
      && Available(asset, x) >= 0.0 && Locked(asset, x) >= 0.0
      && Locked(asset, x) == MapSum(OpenReserves(MarketExec(cs).value.repo.orders, a, asset))
  {
    MarketRunsAgree(cs);
    hide MarketExec, MarketRepoOk, Balanced, WholeLocks;
    var m := MarketExec(cs).value;
    var x := m.accounts.Get(a);
    assert Balanced(x);
    BalancedNonNegative(x, asset);
    LockedIsReserved(x, asset);
    OpenOnlyReserves(m.accounts, m.repo.orders, a, asset);
  }

  lemma LockedIsReserved(x: Account, asset: Asset)
    requires Balanced(x)
    ensures Locked(asset, x) == MapSum(Reserves(asset, x.locks))
  {
    assert AssetOk(asset, x);
  }

  lemma OpenOnlyReserves(l: Accounts, orders: map<OrderId, Order>, a: AccountId, asset: Asset)
    requires WholeLocks(l, orders)
    ensures Reserves(asset, l.Get(a).locks) == OpenReserves(orders, a, asset)
  {
    hide WholeLock, Reserve;
  }

  /** A scan at the end of any run: exactly the open orders of the symbol that meet the quote are filled, whole. */
  lemma ScanFillsExactly(cs: seq<MarketCommand>, sym: Symbol, q: Quote)
    requires MarketWellFormed(cs)
    ensures MarketExec(cs).Done? && MarketStep(MarketExec(cs).value, Tick(sym, q)).Done?
    ensures var m, m' := MarketExec(cs).value, MarketStep(MarketExec(cs).value, Tick(sym, q)).value;
      && m'.repo.ids == m.repo.ids && m'.repo.orders == (map id | id in m.repo.orders ::
           var o := m.repo.orders[id];
           if o.symbol == sym && o.status == Routed && Meets(o, q)
           then o.(filled := o.qty, status := Status.Filled) else o)
      && forall id :: id in m'.repo.orders && m'.repo.orders[id].symbol == sym && Meets(m'.repo.orders[id], q) ==>
           m'.repo.orders[id].status != Routed
  {
    hide MarketExec, MarketStep, MarketInv, AfterScan, Meets;
    MarketRunsAgree(cs);
    var m := MarketExec(cs).value;
    TickKeepsInv(m, sym, q);
    forall id | id in m.repo.orders
      ensures var o := m.repo.orders[id];
        AfterScan(o, sym, q) == if o.symbol == sym && o.status == Routed && Meets(o, q)
          then o.(filled := o.qty, status := Status.Filled) else o
    {
      ScanMeets(m.repo.orders[id], sym, q);
    }
  }

  lemma ScanMeets(o: Order, sym: Symbol, q: Quote)
    ensures AfterScan(o, sym, q) == if o.symbol == sym && o.status == Routed && Meets(o, q)
      then o.(filled := o.qty, status := Status.Filled) else o
  {
  }
}

/** One crossing with its settlement keeps the agreement; so does the whole loop. */
module Settling {
  import opened Domain
  import opened PriceTime
  import opened Matching
  import opened Ledger
  import opened LedgerLaws
  import opened Orders
  import opened Exchange
  import opened Agreement

  /** The order after a fill of qty. */
  function AfterFill(o: Order, qty: real): Order {
    o.(filled := o.filled + qty, status := if o.Remaining() == qty then Status.Filled else PartiallyFilled)
  }

  /** A live order accepts any fill up to what remains; the state machine never refuses. */
  lemma FillAccepted(id: OrderId, o: Order, qty: real)
    requires OrderOk(id, o) && Live(o) && 0.0 < qty <= o.Remaining()
    ensures FillOrder(o, qty) == Done(AfterFill(o, qty))
    ensures OrderOk(id, AfterFill(o, qty))
    ensures Live(AfterFill(o, qty)) <==> qty < o.Remaining()
  {
  }

  /** Orders elsewhere do not concern a side. */
  lemma SideUntouched(ids: seq<OrderId>, orders: map<OrderId, Order>, o: Order, sym: Symbol, side: Side,
                      es: seq<BookEntry>)
    requires SideAgrees(ids, orders, sym, side, es)
    requires !Rests(o, sym, side)
    requires o.id in orders ==> !Rests(orders[o.id], sym, side)
    ensures SideAgrees(ids, orders[o.id := o], sym, side, es)
  {
  }

  /** Filling the top order and taking its top entry go together. */
  lemma TopFilled(ids: seq<OrderId>, orders: map<OrderId, Order>, sym: Symbol, side: Side, es: seq<BookEntry>,
                  qty: real)
    requires SideAgrees(ids, orders, sym, side, es) && es != []
    requires forall id :: id in orders ==> OrderOk(id, orders[id])
    requires 0.0 < qty <= es[0].qty
    ensures es[0].orderId in orders
    ensures var o := AfterFill(orders[es[0].orderId], qty);
      SideAgrees(ids, orders[o.id := o], sym, side, TakeTop(es, qty))
  {
    hide *;
    TopEntryFilled(ids, orders, sym, side, es, qty);
    var o := AfterFill(orders[es[0].orderId], qty);
    RestOfSide(ids, orders, sym, side, es, o);
    HeadReplaced(ids, orders, sym, side, es, o);
  }

  lemma TopEntryFilled(ids: seq<OrderId>, orders: map<OrderId, Order>, sym: Symbol, side: Side, es: seq<BookEntry>,
                       qty: real)
    requires SideAgrees(ids, orders, sym, side, es) && es != []
    requires forall id :: id in orders ==> OrderOk(id, orders[id])
    requires 0.0 < qty <= es[0].qty
    ensures Queue(ids, es) && es[0].orderId in orders && forall id :: id in orders ==> orders[id].id == id
    ensures var o := AfterFill(orders[es[0].orderId], qty);
      && o.id == es[0].orderId && o.symbol == sym && o.side == side
      && Entry(o).sortPrice == es[0].sortPrice && o.createdAt == es[0].sortTime
      && TakeTop(es, qty) == if Live(o) then [Entry(o)] + es[1..] else es[1..]
  {
    hide Queue, Rank;
    assert es[0] in es;
    var o0 := orders[es[0].orderId];
    assert OrderOk(es[0].orderId, o0);
    FillAccepted(o0.id, o0, qty);
  }

  /** The head of a side gives way to its order's new entry, or to nothing if the order no longer rests. */
  lemma HeadReplaced(ids: seq<OrderId>, orders: map<OrderId, Order>, sym: Symbol, side: Side, es: seq<BookEntry>,
                     o: Order)
    requires Queue(ids, es) && es != [] && o.id == es[0].orderId
    requires Entry(o).sortPrice == es[0].sortPrice && o.createdAt == es[0].sortTime
    requires o.symbol == sym && o.side == side
    requires forall e :: e in es[1..] ==>
      e.orderId != o.id && e.orderId in orders && Rests(orders[e.orderId], sym, side) && e == Entry(orders[e.orderId])
    requires forall id :: id in orders && id != o.id && Rests(orders[id], sym, side) ==> Entry(orders[id]) in es[1..]
    ensures SideAgrees(ids, orders[o.id := o], sym, side, if Live(o) then [Entry(o)] + es[1..] else es[1..])
  {
    QueueHead(ids, es);
    QueueNewHead(ids, es, Entry(o));
    var r := [Entry(o)] + es[1..];
    assert forall e :: e in r <==> e == Entry(o) || e in es[1..];
  }

  /** Behind the head, a side holds the entries of the other orders. */
  lemma RestOfSide(ids: seq<OrderId>, orders: map<OrderId, Order>, sym: Symbol, side: Side, es: seq<BookEntry>,
                   o: Order)
    requires SideAgrees(ids, orders, sym, side, es) && es != [] && o.id == es[0].orderId
    requires forall id :: id in orders ==> orders[id].id == id
    ensures forall e :: e in es[1..] ==>
      e.orderId != o.id && e.orderId in orders && Rests(orders[e.orderId], sym, side) && e == Entry(orders[e.orderId])
    ensures forall id :: id in orders && id != o.id && Rests(orders[id], sym, side) ==> Entry(orders[id]) in es[1..]
  {
    QueueHead(ids, es);
    assert es[0] in es;
    forall id | id in orders && id != o.id && Rests(orders[id], sym, side) ensures Entry(orders[id]) in es[1..] {
      assert Entry(orders[id]) in es && Entry(orders[id]).orderId == id;
    }
  }

  // ---------- ledger legs ----------

  lemma LimitCovers(limit: real, price: real, remaining: real, qty: real, cash: real)
    requires price <= limit && 0.0 < qty <= remaining && cash >= Value(limit, remaining) && limit >= 0.0
    ensures cash - Value(price, qty) >= Value(limit, remaining - qty)
    ensures Value(price, qty) <= cash
  {
    assert limit * (remaining - qty) == limit * remaining - limit * qty;
    assert (limit - price) * qty >= 0.0;
    assert limit * (remaining - qty) >= 0.0;
  }

  lemma PutKeeps(l: Accounts, a: AccountId, acct: Account)
    requires AccountsOk(l)
    ensures AccountsOk(l.Put(a, acct))
  {
  }

  lemma {:induction false} BuyLegAgrees(l: Accounts, orders: map<OrderId, Order>, o: Order, price: real, qty: real)
    requires LedgerAgrees(l, orders) && o.id in orders && orders[o.id] == o && OrderOk(o.id, o)
    requires Live(o) && o.side == Buy && 0.0 < qty <= o.Remaining() && 0.0 <= price <= o.Limit()
    ensures LedgerAgrees(l.Put(o.account, BuyLeg(l.Get(o.account), o.id, o.symbol, price, qty)),
                         orders[o.id := AfterFill(o, qty)])
  {
    hide LedgerAgrees, Balanced, BuyLeg, Value;
    LocksRead(l, orders, o);
    AccountBalances(l, orders, o.account);
    var acct := l.Get(o.account);
    var k := acct.locks[o.id];
    LimitCovers(o.Limit(), price, o.Remaining(), qty, k.cash);
    BuyLegKeepsBalance(acct, o.id, o.symbol, price, qty);
    LegAgrees(l, orders, o, AfterFill(o, qty), BuyLeg(acct, o.id, o.symbol, price, qty));
  }

  lemma LocksRead(l: Accounts, orders: map<OrderId, Order>, o: Order)
    requires LedgerAgrees(l, orders) && o.id in orders && orders[o.id] == o && HoldsLock(o)
    ensures o.id in l.Get(o.account).locks && LockFor(o, l.Get(o.account).locks[o.id])
  {
    hide Balanced, AccountsOk, LockFor;
  }

  lemma AccountBalances(l: Accounts, orders: map<OrderId, Order>, a: AccountId)
    requires LedgerAgrees(l, orders)
    ensures Balanced(l.Get(a))
  {
    hide Balanced;
  }

  /** The ledger after the account and the lock of one order changed. */
  lemma LegAgrees(l: Accounts, orders: map<OrderId, Order>, o: Order, o': Order, x: Account)
    requires LedgerAgrees(l, orders) && Balanced(x) && o.id in orders && orders[o.id] == o
    requires o'.id == o.id && o'.account == o.account
    requires forall id :: id != o.id ==> (id in x.locks <==> id in l.Get(o.account).locks)
    requires forall id :: id != o.id && id in l.Get(o.account).locks ==> x.locks[id] == l.Get(o.account).locks[id]
    requires o.id in x.locks <==> HoldsLock(o')
    requires HoldsLock(o') ==> LockFor(o', x.locks[o.id])
    ensures LedgerAgrees(l.Put(o.account, x), orders[o.id := o'])
  {
    var l' := l.Put(o.account, x);
    PutKeeps(l, o.account, x);
    hide Balanced, AccountsOk, LockFor, HoldsLock;
    assert l'.Get(o.account) == x && forall a :: a != o.account ==> l'.Get(a) == l.Get(a);
    forall a ensures Balanced(l'.Get(a)) { assert Balanced(l.Get(a)); }
    LocksAfter(l, l', orders, o, o');
  }

  lemma {:induction false} SellLegAgrees(l: Accounts, orders: map<OrderId, Order>, o: Order, price: real, qty: real)
    requires LedgerAgrees(l, orders) && o.id in orders && orders[o.id] == o && OrderOk(o.id, o)
    requires Live(o) && o.side == Sell && 0.0 < qty <= o.Remaining() && 0.0 <= price
    ensures LedgerAgrees(l.Put(o.account, SellLeg(l.Get(o.account), o.id, o.symbol, price, qty)),
                         orders[o.id := AfterFill(o, qty)])
  {
    hide LedgerAgrees, Balanced, SellLeg, Value;
    LocksRead(l, orders, o);
    AccountBalances(l, orders, o.account);
    var acct := l.Get(o.account);
    SellLegKeepsBalance(acct, o.id, o.symbol, price, qty);
    LegAgrees(l, orders, o, AfterFill(o, qty), SellLeg(acct, o.id, o.symbol, price, qty));
  }

  /** Locks still agree when only one account changed, and there only the lock of the one changed order. */
  lemma LocksAfter(l: Accounts, l': Accounts, orders: map<OrderId, Order>, o: Order, o': Order)
    requires LocksAgree(l, orders)
    requires o'.id == o.id && o'.account == o.account && (o.id in orders ==> orders[o.id].account == o.account)
    requires forall a :: a != o.account ==> l'.Get(a) == l.Get(a)
    requires forall id :: id != o.id ==>
      (id in l'.Get(o.account).locks <==> id in l.Get(o.account).locks)
    requires forall id :: id != o.id && id in l.Get(o.account).locks ==>
      l'.Get(o.account).locks[id] == l.Get(o.account).locks[id]
    requires o.id in l'.Get(o.account).locks <==> HoldsLock(o')
    requires HoldsLock(o') ==> LockFor(o', l'.Get(o.account).locks[o.id])
    ensures LocksAgree(l', orders[o.id := o'])
  {
    var orders' := orders[o.id := o'];
    forall a, id | id in l'.Get(a).locks
      ensures id in orders' && orders'[id].account == a && LockFor(orders'[id], l'.Get(a).locks[id])
    {
      if a != o.account { assert id in l.Get(a).locks; }
      else if id != o.id { assert id in l.Get(a).locks; }
    }
  }

  // ---------- one crossing ----------

  /** Prices at which a bid and a live ask can trade are covered by the buyer's lock. */
  lemma {:induction false} SettleAgrees(l: Accounts, orders: map<OrderId, Order>, b: Order, a: Order, price: real,
                                        qty: real)
    requires b.id in orders && orders[b.id] == b && a.id in orders && orders[a.id] == a
    requires b.symbol == a.symbol && b.side == Buy && a.side == Sell && Live(b) && Live(a)
    requires 0.0 < qty <= b.Remaining() && qty <= a.Remaining() && 0.0 <= price <= b.Limit()
    requires OrderOk(b.id, b) && OrderOk(a.id, a) && LedgerAgrees(l, orders)
    ensures LedgerAgrees(Settle(l, b.account, a.account, b.id, a.id, b.symbol, price, qty),
                         orders[b.id := AfterFill(b, qty)][a.id := AfterFill(a, qty)])
  {
    hide Balanced;
    assert b.account in l.table by { assert b.id in l.Get(b.account).locks; }
    assert a.account in l.table by { assert a.id in l.Get(a.account).locks; }
    var l0 := l.Put(b.account, l.Get(b.account));
    assert l0 == l by { assert l0.table == l.table; }
    var l1 := l.Put(a.account, l.Get(a.account));
    assert l1 == l by { assert l1.table == l.table; }
    BuyLegAgrees(l, orders, b, price, qty);
    var l3 := l.Put(b.account, BuyLeg(l.Get(b.account), b.id, b.symbol, price, qty));
    SellLegAgrees(l3, orders[b.id := AfterFill(b, qty)], a, price, qty);
  }

  /** The book half of a crossing: both top orders filled, both top entries taken. */
  lemma CrossBooks(repo: Repo, books: map<Symbol, Book>, sym: Symbol, qty: real)
    requires RepoOk(repo) && BooksAgree(repo, books) && Crossable(BookOf(books, sym))
    requires qty == Min(BookOf(books, sym).bids[0].qty, BookOf(books, sym).asks[0].qty)
    ensures var b := BookOf(books, sym);
      && b.bids[0].orderId in repo.orders && b.asks[0].orderId in repo.orders
      && var buy, sell := repo.orders[b.bids[0].orderId], repo.orders[b.asks[0].orderId];
      && Rests(buy, sym, Buy) && Rests(sell, sym, Sell) && b.bids[0] == Entry(buy) && b.asks[0] == Entry(sell)
      && 0.0 < qty
      && BooksAgree(Repo(repo.ids, repo.orders[buy.id := AfterFill(buy, qty)][sell.id := AfterFill(sell, qty)]),
                    books[sym := CrossOnce(b)])
  {
    var b := BookOf(books, sym);
    assert SideMatches(repo, books, sym, Buy) && SideMatches(repo, books, sym, Sell);
    assert b.bids[0] in b.bids && b.asks[0] in b.asks;
    var buy, sell := repo.orders[b.bids[0].orderId], repo.orders[b.asks[0].orderId];
    var repo' := Repo(repo.ids, repo.orders[buy.id := AfterFill(buy, qty)][sell.id := AfterFill(sell, qty)]);
    var books' := books[sym := CrossOnce(b)];
    forall s, side ensures SideMatches(repo', books', s, side) {
      CrossSide(repo, books, sym, qty, buy, sell, s, side);
    }
  }

  lemma CrossSide(repo: Repo, books: map<Symbol, Book>, sym: Symbol, qty: real, buy: Order, sell: Order, s: Symbol,
                  side: Side)
    requires RepoOk(repo) && BooksAgree(repo, books) && Crossable(BookOf(books, sym))
    requires qty == Min(BookOf(books, sym).bids[0].qty, BookOf(books, sym).asks[0].qty) && 0.0 < qty
    requires buy.id in repo.orders && buy == repo.orders[buy.id] && sell.id in repo.orders &&
      sell == repo.orders[sell.id]
    requires Rests(buy, sym, Buy) && BookOf(books, sym).bids[0] == Entry(buy)
    requires Rests(sell, sym, Sell) && BookOf(books, sym).asks[0] == Entry(sell)
    ensures SideMatches(Repo(repo.ids, repo.orders[buy.id := AfterFill(buy, qty)][sell.id := AfterFill(sell, qty)]),
                        books[sym := CrossOnce(BookOf(books, sym))], s, side)
  {
    var ids, orders := repo.ids, repo.orders;
    var es := BookOf(books, s).On(side);
    var buy', sell' := AfterFill(buy, qty), AfterFill(sell, qty);
    var orders1 := orders[buy.id := buy'];
    FillAccepted(buy.id, buy, qty);
    assert SideMatches(repo, books, s, side);
    if s == sym && side == Buy {
      TopFilled(ids, orders, sym, Buy, es, qty);
      SideUntouched(ids, orders1, sell', s, side, TakeTop(es, qty));
    } else {
      SideUntouched(ids, orders, buy', s, side, es);
      if s == sym { TopFilled(ids, orders1, sym, Sell, es, qty); }
      else { SideUntouched(ids, orders1, sell', s, side, es); }
    }
  }

  /** What applying a trade amounts to once both fills are accepted. */
  lemma TradeUnfolds(d: Desk, t: Trade, buy: Order, sell: Order)
    requires t.buyId in d.repo.orders && d.repo.orders[t.buyId] == buy && buy.id == t.buyId
    requires t.sellId in d.repo.orders && d.repo.orders[t.sellId] == sell && sell.id == t.sellId && t.buyId != t.sellId
    requires t.qty > 0.0 && FillOrder(buy, t.qty) == Done(AfterFill(buy, t.qty))
    requires FillOrder(sell, t.qty) == Done(AfterFill(sell, t.qty))
    ensures ApplyTrade(d, t) == Done(Desk(
      Settle(d.accounts, buy.account, sell.account, t.buyId, t.sellId, t.symbol, t.price, t.qty),
      Repo(d.repo.ids, d.repo.orders[buy.id := AfterFill(buy, t.qty)][sell.id := AfterFill(sell, t.qty)]),
      d.log + [TradeExecuted(t),
               TradeSettlement(buy.account, sell.account, t.buyId, t.sellId, t.symbol, t.price, t.qty)],
      d.fills + [FillEvent(AfterFill(buy, t.qty), t.qty), FillEvent(AfterFill(sell, t.qty), t.qty)]))
  {
    hide Settle, Settleable;
    PositiveSettles(d.accounts, buy.account, sell.account, t.symbol, t.qty);
  }

  lemma RepoSetOk(repo: Repo, o: Order)
    requires RepoOk(repo) && o.id in repo.orders && OrderOk(o.id, o)
    ensures RepoOk(Repo(repo.ids, repo.orders[o.id := o]))
  {
  }

  ghost predicate DeskAfter(d: Desk, r: Outcome<Desk>, qty: real, buy: Order, sell: Order) {
    && r.Done?
    && r.value.repo == Repo(d.repo.ids, d.repo.orders[buy.id := AfterFill(buy, qty)][sell.id := AfterFill(sell, qty)])
    && RepoOk(r.value.repo)
    && LedgerAgrees(r.value.accounts, r.value.repo.orders)
  }

  /** The desk half of a crossing: the state machine accepts both fills and the settlement is covered. */
  lemma {:induction false} TradeApplies(d: Desk, t: Trade, buy: Order, sell: Order)
    requires RepoOk(d.repo) && LedgerAgrees(d.accounts, d.repo.orders)
    requires t.buyId in d.repo.orders && d.repo.orders[t.buyId] == buy && Rests(buy, t.symbol, Buy)
    requires t.sellId in d.repo.orders && d.repo.orders[t.sellId] == sell && Rests(sell, t.symbol, Sell)
    requires OrderOk(buy.id, buy) && OrderOk(sell.id, sell)
    requires 0.0 < t.qty <= buy.Remaining() && t.qty <= sell.Remaining() && 0.0 <= t.price <= buy.Limit()
    ensures DeskAfter(d, ApplyTrade(d, t), t.qty, buy, sell)
  {
    assert buy.id == t.buyId && sell.id == t.sellId && t.buyId != t.sellId;
    FillAccepted(buy.id, buy, t.qty);
    FillAccepted(sell.id, sell, t.qty);
    hide RepoOk, LedgerAgrees;
    TradeUnfolds(d, t, buy, sell);
    SettleAgrees(d.accounts, d.repo.orders, buy, sell, t.price, t.qty);
    RepoSetOk(d.repo, AfterFill(buy, t.qty));
    RepoSetOk(Repo(d.repo.ids, d.repo.orders[buy.id := AfterFill(buy, t.qty)]), AfterFill(sell, t.qty));
  }

  /** The outcome of settling a run of trades: no refusal, the same orders known, and agreement with the books. */
  ghost predicate SettledWith(d: Desk, r: Outcome<Desk>, books: map<Symbol, Book>) {
    r.Done? && r.value.repo.ids == d.repo.ids && Agrees(r.value.accounts, r.value.repo, books)
  }

  /**
   * One round of the loop and the application of its trade: the state machine accepts both fills and
   * book, repository and ledger still agree.
   */
  lemma {:induction false} CrossAgrees(d: Desk, books: map<Symbol, Book>, sym: Symbol)
    requires Agrees(d.accounts, d.repo, books) && Crossable(BookOf(books, sym))
    ensures SettledWith(d, ApplyTrade(d, TradeBetween(sym, BookOf(books, sym).bids[0], BookOf(books, sym).asks[0])),
                        books[sym := CrossOnce(BookOf(books, sym))])
  {
    var b := BookOf(books, sym);
    var t := TradeBetween(sym, b.bids[0], b.asks[0]);
    CrossBooks(d.repo, books, sym, t.qty);
    var buy, sell := d.repo.orders[t.buyId], d.repo.orders[t.sellId];
    assert OrderOk(buy.id, buy) && OrderOk(sell.id, sell);
    TradeApplies(d, t, buy, sell);
  }

  /** Unfolding the loop and its settlements by one round. */
  lemma FirstRoundOfLoop(d: Desk, sym: Symbol, b: Book)
    requires Crossable(b) && ApplyTrade(d, TradeBetween(sym, b.bids[0], b.asks[0])).Done?
    ensures Match(sym, b).book == Match(sym, CrossOnce(b)).book
    ensures ApplyTrades(d, Match(sym, b).trades) ==
      ApplyTrades(ApplyTrade(d, TradeBetween(sym, b.bids[0], b.asks[0])).value, Match(sym, CrossOnce(b)).trades)
  {
    assert Match(sym, b).trades[1..] == Match(sym, CrossOnce(b)).trades;
  }

  /** The whole crossing loop with its settlements: never refused, and the agreement holds at the end. */
  lemma {:induction false} LoopAgrees(d: Desk, books: map<Symbol, Book>, sym: Symbol)
    requires Agrees(d.accounts, d.repo, books)
    ensures SettledWith(d, ApplyTrades(d, Match(sym, BookOf(books, sym)).trades),
                        books[sym := Match(sym, BookOf(books, sym)).book])
    decreases |BookOf(books, sym).bids| + |BookOf(books, sym).asks|
  {
    hide Agrees, Match, ApplyTrade, TradeBetween;
    var b := BookOf(books, sym);
    MatchUnfolds(sym, b);
    if Crossable(b) {
      CrossAgrees(d, books, sym);
      var d1 := ApplyTrade(d, TradeBetween(sym, b.bids[0], b.asks[0])).value;
      var books1 := books[sym := CrossOnce(b)];
      LoopAgrees(d1, books1, sym);
      FirstRoundOfLoop(d, sym, b);
      assert books1[sym := Match(sym, b).book] == books[sym := Match(sym, b).book];
    } else {
      SameBooks(d.accounts, d.repo, books, sym);
    }
  }

  /** Recording a book that is already there changes nothing. */
  lemma SameBooks(l: Accounts, repo: Repo, books: map<Symbol, Book>, sym: Symbol)
    requires Agrees(l, repo, books)
    ensures Agrees(l, repo, books[sym := BookOf(books, sym)])
  {
    var books' := books[sym := BookOf(books, sym)];
    forall s, side ensures SideMatches(repo, books', s, side) {
      assert SideMatches(repo, books, s, side);
    }
  }
}

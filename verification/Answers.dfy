/** What each command is answered with, told from the state before it: accepted or refused, and why. */
module Answers {
  import opened Domain
  import opened PriceTime
  import opened Matching
  import opened Ledger
  import opened Orders
  import opened Exchange
  import opened Agreement
  import opened Runs
  import opened LogShape
  import opened ExactLocks
  import opened ReplayRuns
  import opened Conservation
  import opened MarketMode
  import opened MarketRuns
  import opened MarketReplay

  // ---------- placing ----------

  /** The account has what the order reserves: a BUY its price for its quantity, a SELL its quantity. */
  predicate Affords(l: Accounts, p: Placement) {
    match p.side
    case Buy => p.price.Some? && p.price.value * p.qty <= l.Get(p.account).cashAvail
    case Sell => p.qty <= l.Get(p.account).Pos(p.symbol).avail
  }

  /** Balances, positions and locks read the same. */
  ghost predicate SameAccounts(l: Accounts, l': Accounts) {
    forall a :: SameAccount(l.Get(a), l'.Get(a))
  }

  ghost predicate SameAccount(x: Account, x': Account) {
    x' == x.(positions := x'.positions) && forall sym :: x'.Pos(sym) == x.Pos(sym)
  }

  /** The answer to a placement, by what it appends to the log. */
  predicate Answered(l: Accounts, p: Placement, es: seq<Event>) {
    && (OrderAccepted(p.id) in es <==> Affords(l, p))
    && if Affords(l, p) then
         && |es| >= 3 && es[..3] == [OrderPlaced(p), OrderAccepted(p.id), OrderRouted(p.id, p.symbol)]
         && forall e :: e in es ==> !e.OrderRejected?
       else
         es == [OrderPlaced(p), OrderRejected(p.id, if p.side == Buy then InsufficientCash else InsufficientPosition)]
  }

  /** What the order needs has moved from what is available to what is locked, under its id, and nothing else has. */
  ghost predicate Reserves(l: Accounts, p: Placement, l': Accounts) {
    && (forall b :: b != p.account ==> l'.Get(b) == l.Get(b))
    && var x, x' := l.Get(p.account), l'.Get(p.account);
    && p.id in x'.locks && x'.locks == x.locks[p.id := x'.locks[p.id]]
    && (forall asset :: Available(asset, x') == Available(asset, x) - Needs(p, asset))
    && (forall asset :: Locked(asset, x') == Locked(asset, x) + Needs(p, asset))
    && (forall asset :: Reserve(asset, x'.locks[p.id]) == Needs(p, asset))
    && (forall sym :: x'.Pos(sym).cost == x.Pos(sym).cost)
  }

  /** A BUY needs cash and a SELL shares. */
  function Needs(p: Placement, asset: Asset): real {
    match asset
    case Cash => if p.side == Buy && p.price.Some? then p.price.value * p.qty else 0.0
    case Shares(sym) => if p.side == Sell && p.symbol == sym then p.qty else 0.0
  }

  /** A lock attempt succeeds exactly if the account has what is needed, and otherwise leaves it as it reads. */
  lemma LockMeans(l: Accounts, p: Placement)
    ensures var r := LockFunds(l, p.account, p.id, p.symbol, p.side, p.qty, p.price);
      if Affords(l, p) then r.rejected.None? && Reserves(l, p, r.accounts)
      else
        && r.rejected == Some(if p.side == Buy then InsufficientCash else InsufficientPosition)
        && SameAccounts(l, r.accounts)
  {
    if Affords(l, p) {
      LockReserves(l, p);
      hide Reserves;
    }
  }

  lemma {:induction false} LockReserves(l: Accounts, p: Placement)
    requires Affords(l, p)
    ensures Reserves(l, p, LockFunds(l, p.account, p.id, p.symbol, p.side, p.qty, p.price).accounts)
  {
    var x := l.Get(p.account);
    ReservedIn(x, p);
    hide LockIn, Needs, Reserve, Available, Locked;
  }

  lemma {:induction false} ReservedIn(x: Account, p: Placement)
    requires Affords(Accounts([p.account], map[p.account := x]), p)
    ensures var x' := LockIn(x, p.id, p.symbol, p.side, p.qty, p.price).account;
      && p.id in x'.locks && x'.locks == x.locks[p.id := x'.locks[p.id]]
      && (forall asset :: Available(asset, x') == Available(asset, x) - Needs(p, asset))
      && (forall asset :: Locked(asset, x') == Locked(asset, x) + Needs(p, asset))
      && (forall asset :: Reserve(asset, x'.locks[p.id]) == Needs(p, asset))
      && (forall sym :: x'.Pos(sym).cost == x.Pos(sym).cost)
  {
  }

  lemma PlacementAnswered(s: State, p: Placement)
    requires Step(s, Place(p)).Done?
    ensures var s' := Step(s, Place(p)).value;
      && s.log <= s'.log && Answered(s.accounts, p, s'.log[|s.log|..])
      && (!Affords(s.accounts, p) ==> SameAccounts(s.accounts, s'.accounts) && s'.books == s.books)
  {
    LockMeans(s.accounts, p);
    StepLog(s, Place(p));
    if Accepts(s, p) { AcceptedTells(s, p); }
    hide LockFunds, Affords, SameAccounts, RoutingEvents;
  }

  /** Behind the header of an accepted placement there are trades, remainders and fills only. */
  lemma AcceptedTells(s: State, p: Placement)
    requires Accepts(s, p)
    ensures var es := NewEvents(s, Place(p));
      && |es| >= 3 && es[..3] == [OrderPlaced(p), OrderAccepted(p.id), OrderRouted(p.id, p.symbol)]
      && forall e :: e in es ==> !e.OrderRejected?
  {
    hide *;
    AcceptedEvents(s, p);
    OnlyRemainders(s, p);
    TradeEventsKind(DeskFor(s, p).repo, TradesOf(s, p));
    FillsTell(DeskFor(s, p), TradesOf(s, p));
  }

  lemma FillsTell(d: Desk, ts: seq<Trade>)
    ensures forall e :: e in FillEvents(d, ts) ==> !e.OrderRejected?
  {
    FillsAreInformational(d, ts);
    hide FillEvents;
  }

  /** Per trade two events: the trade, and its settlement between the owners of its orders. */
  predicate TradesTold(orders: map<OrderId, Order>, ts: seq<Trade>, es: seq<Event>)
    decreases |ts|
  {
    if ts == [] then es == []
    else
      var t := ts[0];
      && |es| >= 2 && t.buyId in orders && t.sellId in orders && es[0] == TradeExecuted(t)
      && es[1] == TradeSettlement(orders[t.buyId].account, orders[t.sellId].account, t.buyId, t.sellId, t.symbol,
                                  t.price, t.qty)
      && TradesTold(orders, ts[1..], es[2..])
  }

  /** Per trade two events: the fill of its BUY order, and the fill of its SELL order. */
  predicate FillsTold(ts: seq<Trade>, es: seq<Event>)
    decreases |ts|
  {
    if ts == [] then es == []
    else
      && |es| >= 2 && es[0].OrderFilled? && es[0].id == ts[0].buyId && es[0].filledQty == ts[0].qty
      && es[1].OrderFilled? && es[1].id == ts[0].sellId && es[1].filledQty == ts[0].qty
      && FillsTold(ts[1..], es[2..])
  }

  lemma {:induction false} TradesAreTold(orders: map<OrderId, Order>, d: Desk, ts: seq<Trade>)
    requires ApplyTrades(d, ts).Done? && SameOwners(d.repo, Repo([], orders))
    ensures TradesTold(orders, ts, TradeEvents(d.repo, ts))
    decreases |ts|
  {
    if ts != [] {
      TradeLog(d, ts[0]);
      hide ApplyTrade;
      var d1 := ApplyTrade(d, ts[0]).value;
      SameOwnersSameEvents(d.repo, d1.repo, ts[1..]);
      TradesAreTold(orders, d1, ts[1..]);
      assert TradeEvents(d.repo, ts)[2..] == TradeEvents(d1.repo, ts[1..]);
    }
  }

  lemma {:induction false} FillsAreTold(d: Desk, ts: seq<Trade>)
    requires ApplyTrades(d, ts).Done? && forall id :: id in d.repo.orders ==> d.repo.orders[id].id == id
    ensures FillsTold(ts, FillEvents(d, ts))
    decreases |ts|
  {
    if ts != [] {
      FirstIsTold(d, ts[0]);
      hide ApplyTrade;
      var d1 := ApplyTrade(d, ts[0]).value;
      FillsAreTold(d1, ts[1..]);
      assert FillEvents(d, ts)[2..] == FillEvents(d1, ts[1..]);
    }
  }

  lemma {:induction false} FirstIsTold(d: Desk, t: Trade)
    requires ApplyTrade(d, t).Done? && forall id :: id in d.repo.orders ==> d.repo.orders[id].id == id
    ensures var d1 := ApplyTrade(d, t).value;
      && t.buyId in d.repo.orders && t.sellId in d.repo.orders && d1.repo.orders.Keys == d.repo.orders.Keys
      && (forall id :: id in d1.repo.orders ==> d1.repo.orders[id].id == id)
      && |d1.fills| == |d.fills| + 2 && FillsTold([t], d1.fills[|d.fills|..])
  {
    hide TrySettle;
  }

  /**
   * What an accepted placement writes: its header, every trade with its settlement, at most one remainder, and then two
   * fills per trade.
   */
  lemma {:induction false} PlacementTold(s: State, p: Placement) returns (ts: seq<Trade>, told: seq<Event>,
                                                                          remain: seq<Event>, fills: seq<Event>)
    requires Inv(s) && p.id !in s.repo.orders && p.qty > 0.0 && SaneShape(p.side, p.otype, p.price)
    requires Affords(s.accounts, p)
    ensures Step(s, Place(p)).Done?
    ensures var s' := Step(s, Place(p)).value;
      && s'.log == s.log + [OrderPlaced(p), OrderAccepted(p.id), OrderRouted(p.id, p.symbol)] + told + remain + fills
      && TradesTold(s'.repo.orders, ts, told) && FillsTold(ts, fills)
      && |remain| <= 1 && forall e :: e in remain ==> e.OrderRemainOnBook?
  {
    hide *;
    AffordsAccepts(s, p);
    AcceptedSettles(s, p);
    DeskKnows(s, p);
    RemainsOnce(s, p);
    var d := DeskFor(s, p);
    ts := TradesOf(s, p);
    AcceptedEvents(s, p);
    StepLog(s, Place(p));
    told, fills := TradeEvents(d.repo, ts), FillEvents(d, ts);
    remain := SubmitOrder(s.books, s.seen, p.symbol, p.side, Entry(NewOrder(p))).remain;
    FillsAreTold(d, ts);
    TradesKeepTerms(d, ts);
    OwnersKept(d.repo, ApplyTrades(d, ts).value.repo);
    TradesAreTold(ApplyTrades(d, ts).value.repo.orders, d, ts);
    var header := [OrderPlaced(p), OrderAccepted(p.id), OrderRouted(p.id, p.symbol)];
    InARow(s.log, header, told, remain, fills);
  }

  lemma InARow(log: seq<Event>, a: seq<Event>, b: seq<Event>, c: seq<Event>, d: seq<Event>)
    ensures log + (a + (b + c + d)) == log + a + b + c + d
  {
  }

  lemma AffordsAccepts(s: State, p: Placement)
    ensures Affords(s.accounts, p) ==> Accepts(s, p)
  {
    LockMeans(s.accounts, p);
  }

  lemma DeskKnows(s: State, p: Placement)
    requires Inv(s)
    ensures forall id :: id in DeskFor(s, p).repo.orders ==> DeskFor(s, p).repo.orders[id].id == id
  {
    hide LockFunds;
    assert forall id :: id in s.repo.orders ==> OrderOk(id, s.repo.orders[id]);
  }

  lemma RemainsOnce(s: State, p: Placement)
    ensures var remain := SubmitOrder(s.books, s.seen, p.symbol, p.side, Entry(NewOrder(p))).remain;
      |remain| <= 1 && forall e :: e in remain ==> e.OrderRemainOnBook?
  {
  }

  lemma OwnersKept(r: Repo, r': Repo)
    requires KeepsTerms(r, r') && r.orders.Keys == r'.orders.Keys
    ensures SameOwners(r, Repo([], r'.orders))
  {
  }

  /** The same in the order-against-market mode. */
  lemma MarketPlacementAnswered(m: Venue, p: Placement)
    requires MarketStep(m, User(Place(p))).Done?
    ensures var m' := MarketStep(m, User(Place(p))).value;
      && m.log <= m'.log && Answered(m.accounts, p, m'.log[|m.log|..])
      && (!Affords(m.accounts, p) ==> SameAccounts(m.accounts, m'.accounts))
  {
    IntakeAnswered(m, p);
    hide AfterMarketIntake, TryFill, Answered, Affords, SameAccounts;
    var m1 := AfterMarketIntake(m, p);
    if m1.repo.orders[p.id].status == Routed && p.symbol in m.quotes {
      FillAppends(m1, p.id, m.quotes[p.symbol]);
      var m' := MarketStep(m, User(Place(p))).value;
      MoreAnswered(m.accounts, p, m1.log[|m.log|..], m'.log[|m1.log|..]);
      assert m'.log[|m.log|..] == m1.log[|m.log|..] + m'.log[|m1.log|..];
    }
  }

  lemma IntakeAnswered(m: Venue, p: Placement)
    ensures var m1 := AfterMarketIntake(m, p);
      && m.log <= m1.log && Answered(m.accounts, p, m1.log[|m.log|..]) && p.id in m1.repo.orders
      && (Affords(m.accounts, p) <==> m1.repo.orders[p.id].status == Routed)
      && (!Affords(m.accounts, p) ==> SameAccounts(m.accounts, m1.accounts))
  {
    LockMeans(m.accounts, p);
    hide LockFunds, Affords, SameAccounts;
    assert AfterMarketIntake(m, p).log == m.log + ([OrderPlaced(p)] + TakeIn(m.accounts, m.repo, p).events);
  }

  lemma MoreAnswered(l: Accounts, p: Placement, es: seq<Event>, fill: seq<Event>)
    requires Answered(l, p, es) && Affords(l, p) && forall e :: e in fill ==> e.TradeExecuted? || e.OrderFilled?
    ensures Answered(l, p, es + fill)
  {
    assert (es + fill)[..3] == es[..3];
  }

  lemma FillAppends(m: Venue, id: OrderId, q: Quote)
    requires TryFill(m, id, q).Done?
    ensures var m' := TryFill(m, id, q).value;
      m.log <= m'.log && forall e :: e in m'.log[|m.log|..] ==> e.TradeExecuted? || e.OrderFilled?
  {
    hide SettleMarket, Fillable;
  }

  // ---------- cash and shares ----------

  /** What bringing in or taking out does to the accounts and the log. */
  ghost predicate Answers(l: Accounts, log: seq<Event>, c: Command, l': Accounts, log': seq<Event>)
    requires c.CashIn? || c.CashOut? || c.SharesIn?
  {
    var x, x' := l.Get(c.account), l'.Get(c.account);
    && (forall a :: a != c.account ==> l'.Get(a) == l.Get(a))
    && match c
       case CashIn(a, amount) =>
         x' == x.(cashAvail := x.cashAvail + amount) && log' == log + [AccountUpdated(a, amount, "", 0.0)]
       case CashOut(a, amount) =>
         if amount <= x.cashAvail
         then x' == x.(cashAvail := x.cashAvail - amount) && log' == log + [AccountUpdated(a, -amount, "", 0.0)]
         else x' == x && log' == log
       case SharesIn(a, sym, qty) =>
         && log' == log + [AccountUpdated(a, 0.0, sym, qty)] && x' == x.(positions := x'.positions)
         && forall y :: x'.Pos(y) == if y == sym then x.Pos(y).(avail := x.Pos(y).avail + qty) else x.Pos(y)
  }

  lemma FundsAnswered(s: State, c: Command)
    requires c.CashIn? || c.CashOut? || c.SharesIn?
    ensures Step(s, c).Done?
    ensures var s' := Step(s, c).value;
      Answers(s.accounts, s.log, c, s'.accounts, s'.log) && s' == s.(accounts := s'.accounts, log := s'.log)
  {
  }

  lemma MarketFundsAnswered(m: Venue, c: Command)
    requires c.CashIn? || c.CashOut? || c.SharesIn?
    ensures MarketStep(m, User(c)).Done?
    ensures var m' := MarketStep(m, User(c)).value;
      Answers(m.accounts, m.log, c, m'.accounts, m'.log) && m' == m.(accounts := m'.accounts, log := m'.log)
  {
    FundsAnswered(Core(m), c);
    hide Step, Answers;
  }

  // ---------- canceling ----------

  /** An entry with the id is on some side of some book. */
  ghost predicate OnBook(s: State, id: OrderId) {
    exists sym, side, e :: e in BookOf(s.books, sym).On(side) && e.orderId == id
  }

  /** Of all entries only those with the id are gone. */
  ghost predicate OnlyGone(books: map<Symbol, Book>, id: OrderId, books': map<Symbol, Book>) {
    forall sym, side :: GoneFrom(BookOf(books, sym).On(side), id, BookOf(books', sym).On(side))
  }

  predicate GoneFrom(es: seq<BookEntry>, id: OrderId, es': seq<BookEntry>) {
    (forall e :: e in es' ==> e in es && e.orderId != id) && (forall e :: e in es && e.orderId != id ==> e in es')
  }

  /** A lock given back: what it reserved is available again, and nothing else has moved. */
  ghost predicate GivenBack(l: Accounts, a: AccountId, id: OrderId, l': Accounts) {
    && id in l.Get(a).locks
    && (forall b :: b != a ==> l'.Get(b) == l.Get(b))
    && var x, x', k := l.Get(a), l'.Get(a), l.Get(a).locks[id];
    && x'.locks == x.locks - {id}
    && (forall asset :: Available(asset, x') == Available(asset, x) + Reserve(asset, k))
    && (forall asset :: Locked(asset, x') == Locked(asset, x) - Reserve(asset, k))
    && (forall sym :: x'.Pos(sym).cost == x.Pos(sym).cost)
  }

  /** An order is canceled exactly if it is on a book; then its entry is gone, and its lock is given back. */
  lemma CancelAnswered(s: State, id: OrderId)
    requires Inv(s)
    ensures Step(s, Cancel(id)).Done?
    ensures var s' := Step(s, Cancel(id)).value;
      if OnBook(s, id) then
        && id in s.repo.orders && s'.log == s.log + [OrderCanceled(id)]
        && s'.repo == Repo(s.repo.ids, s.repo.orders[id := s.repo.orders[id].(status := Canceled)])
        && OnlyGone(s.books, id, s'.books)
        && GivenBack(s.accounts, s.repo.orders[id].account, id, s'.accounts)
      else s' == s.(log := s.log + if id in s.repo.orders then [CancelRejected(id)] else [])
  {
    hide *;
    OnBookWhenLive(s, id);
    CancelIs(s, id);
    if OnBook(s, id) {
      var o := s.repo.orders[id];
      EntriesAfter(s, o);
      ReleaseGivesBack(s.accounts, o.account, id);
    }
  }

  lemma CancelIs(s: State, id: OrderId)
    requires Inv(s)
    ensures Step(s, Cancel(id)).Done?
    ensures var s' := Step(s, Cancel(id)).value;
      if id in s.repo.orders && s.repo.orders[id].IsCancelable() then
        var o := s.repo.orders[id];
        s' == s.(accounts := Unlock(s.accounts, o.account, id),
          repo := Repo(s.repo.ids, s.repo.orders[id := o.(status := Canceled)]),
          books := s.books[o.symbol := RemoveFromBook(BookOf(s.books, o.symbol), id)],
          log := s.log + [OrderCanceled(id)])
      else s' == s.(log := s.log + if id in s.repo.orders then [CancelRejected(id)] else [])
  {
    assert s.log + [] == s.log;
    if id in s.repo.orders && s.repo.orders[id].IsCancelable() {
      CancelableIsLive(s, id);
      hide Inv, Unlock, RemoveFromBook, BookOf;
    } else {
      hide Inv, Unlock, RemoveFromBook, BookOf;
    }
  }

  lemma OnBookWhenLive(s: State, id: OrderId)
    requires Inv(s)
    ensures OnBook(s, id) <==> id in s.repo.orders && s.repo.orders[id].IsCancelable()
    ensures OnBook(s, id) ==> Live(s.repo.orders[id]) && s.repo.orders[id].id == id
    ensures OnBook(s, id) ==> id in s.accounts.Get(s.repo.orders[id].account).locks
  {
    hide *;
    if OnBook(s, id) { RestsLive(s, id); }
    if id in s.repo.orders && s.repo.orders[id].IsCancelable() { LiveRests(s, id); }
  }

  lemma RestsLive(s: State, id: OrderId)
    requires Inv(s) && OnBook(s, id)
    ensures id in s.repo.orders && Live(s.repo.orders[id]) && s.repo.orders[id].id == id
    ensures s.repo.orders[id].IsCancelable() && id in s.accounts.Get(s.repo.orders[id].account).locks
  {
    hide Queue, Uncrossed, Balanced, AccountsOk, LockFor;
    var sym, side, e :| e in BookOf(s.books, sym).On(side) && e.orderId == id;
    assert SideMatches(s.repo, s.books, sym, side);
    assert OrderOk(id, s.repo.orders[id]) && HoldsLock(s.repo.orders[id]);
    hide OrderOk;
  }

  lemma LiveRests(s: State, id: OrderId)
    requires Inv(s) && id in s.repo.orders && s.repo.orders[id].IsCancelable()
    ensures OnBook(s, id)
  {
    var o := s.repo.orders[id];
    assert OrderOk(id, o);
    assert SideMatches(s.repo, s.books, o.symbol, o.side);
    assert Entry(o) in BookOf(s.books, o.symbol).On(o.side);
    hide Queue, LedgerAgrees, Uncrossed, OrderOk;
  }

  lemma EntriesAfter(s: State, o: Order)
    requires Inv(s) && o.id in s.repo.orders && s.repo.orders[o.id] == o && Live(o)
    ensures OnlyGone(s.books, o.id, s.books[o.symbol := RemoveFromBook(BookOf(s.books, o.symbol), o.id)])
  {
    CancelFinds(s.repo, s.books, o);
    var b := BookOf(s.books, o.symbol);
    var books' := s.books[o.symbol := RemoveFromBook(b, o.id)];
    forall sym, side ensures GoneFrom(BookOf(s.books, sym).On(side), o.id, BookOf(books', sym).On(side)) {
      assert BookOf(books', sym).On(side) ==
        if sym == o.symbol && side == o.side then RemoveEntry(b.On(side), o.id) else BookOf(s.books, sym).On(side);
      SideAfter(s, o, sym, side);
      hide *;
    }
  }

  lemma SideAfter(s: State, o: Order, sym: Symbol, side: Side)
    requires Inv(s) && o.id in s.repo.orders && s.repo.orders[o.id] == o && Live(o)
    ensures var es := BookOf(s.books, sym).On(side);
      GoneFrom(es, o.id, if sym == o.symbol && side == o.side then RemoveEntry(es, o.id) else es)
  {
    hide *;
    var es := BookOf(s.books, sym).On(side);
    SideOf(s, sym, side);
    AgreeingSideOk(s.repo.ids, s.repo.orders, sym, side, es);
    EntryGone(s.repo.ids, s.repo.orders, sym, side, es, o);
  }

  lemma SideOf(s: State, sym: Symbol, side: Side)
    requires Inv(s)
    ensures SideAgrees(s.repo.ids, s.repo.orders, sym, side, BookOf(s.books, sym).On(side))
    ensures forall id :: id in s.repo.orders ==> OrderOk(id, s.repo.orders[id])
  {
    assert SideMatches(s.repo, s.books, sym, side);
    hide SideAgrees, OrderOk, LedgerAgrees, Uncrossed;
  }

  lemma EntryGone(ids: seq<OrderId>, orders: map<OrderId, Order>, sym: Symbol, side: Side, es: seq<BookEntry>, o: Order)
    requires SideAgrees(ids, orders, sym, side, es) && o.id in orders && orders[o.id] == o
    requires forall i, j :: 0 <= i < j < |es| ==> es[i].orderId != es[j].orderId
    ensures GoneFrom(es, o.id, if sym == o.symbol && side == o.side then RemoveEntry(es, o.id) else es)
  {
    hide RemoveEntry, Queue, Entry;
    RemoveMembers(ids, es, o.id);
  }

  lemma ReleaseGivesBack(l: Accounts, a: AccountId, id: OrderId)
    requires id in l.Get(a).locks
    ensures GivenBack(l, a, id, Unlock(l, a, id))
  {
    var x := l.Get(a);
    ReleaseReserves(x, id);
    UnlockIs(l, a, id);
    hide Release, Reserve, Available, Locked;
    assert Unlock(l, a, id).Get(a) == Release(x, id);
  }

  lemma ReleaseReserves(x: Account, id: OrderId)
    requires id in x.locks
    ensures var x', k := Release(x, id), x.locks[id];
      && x'.locks == x.locks - {id}
      && (forall asset :: Available(asset, x') == Available(asset, x) + Reserve(asset, k))
      && (forall asset :: Locked(asset, x') == Locked(asset, x) - Reserve(asset, k))
      && (forall sym :: x'.Pos(sym).cost == x.Pos(sym).cost)
  {
    var x', k := Release(x, id), x.locks[id];
    forall asset
      ensures Available(asset, x') == Available(asset, x) + Reserve(asset, k)
      ensures Locked(asset, x') == Locked(asset, x) - Reserve(asset, k)
    {
      match asset
      case Cash =>
      case Shares(sym) =>
    }
  }

  /** In the order-against-market mode an order is canceled exactly if it is open, and its whole lock is given back. */
  lemma MarketCancelAnswered(m: Venue, id: OrderId)
    requires MarketInv(m)
    ensures MarketStep(m, User(Cancel(id))).Done?
    ensures var m' := MarketStep(m, User(Cancel(id))).value;
      if id in m.repo.orders && m.repo.orders[id].status == Routed then
        var o := m.repo.orders[id];
        && m' == m.(accounts := m'.accounts, repo := m'.repo, log := m.log + [OrderCanceled(id)])
        && m'.repo == Repo(m.repo.ids, m.repo.orders[id := o.(status := Canceled)])
        && GivenBack(m.accounts, o.account, id, m'.accounts)
        && m.accounts.Get(o.account).locks[id].cash == (if o.side == Buy then o.Limit() * o.qty else 0.0)
        && m.accounts.Get(o.account).locks[id].qty == o.qty
      else m' == m.(log := m.log + if id in m.repo.orders then [CancelRejected(id)] else [])
  {
    hide Value, GivenBack, Unlock, MarketStep, MarketInv, NewEvents;
    MarketCancelKeepsInv(m, id);
    CancelGrows(m, id);
    MarketCancelIs(m, id);
    assert m.log + [] == m.log;
    if id in m.repo.orders && m.repo.orders[id].status == Routed {
      ReleaseGivesBack(m.accounts, m.repo.orders[id].account, id);
    }
  }

  lemma MarketCancelIs(m: Venue, id: OrderId)
    requires MarketInv(m) && MarketStep(m, User(Cancel(id))).Done?
    ensures var m' := MarketStep(m, User(Cancel(id))).value;
      m'.repo.ids == m.repo.ids && (id !in m.repo.orders ==> m' == m)
    ensures id in m.repo.orders && m.repo.orders[id].status == Routed ==>
      var o := m.repo.orders[id];
      && id in m.accounts.Get(o.account).locks
      && m.accounts.Get(o.account).locks[id].cash == (if o.side == Buy then o.Limit() * o.qty else 0.0)
      && m.accounts.Get(o.account).locks[id].qty == o.qty
  {
    if id in m.repo.orders { InvParts(m, id); }
    hide Balanced, AccountsOk, MarketRepoOk, Unlock;
  }
}

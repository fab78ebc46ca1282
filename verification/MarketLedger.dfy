/** In the order-against-market mode every account owns what the log says came to it. */
module MarketLedger {
  import opened Domain
  import opened Ledger
  import opened Orders
  import opened Exchange
  import opened Conservation
  import opened Answers
  import opened MarketMode
  import opened MarketRuns
  import opened MarketFills

  /** What an event brings an account: what is brought in or taken out, and the trades of its orders. */
  function Brings(asset: Asset, orders: map<OrderId, Order>, e: Event, a: AccountId): real {
    match e
    case AccountUpdated(b, cash, sym, qty) =>
      if a != b then 0.0 else (match asset case Cash => cash case Shares(y) => if y == sym then qty else 0.0)
    case TradeExecuted(t) =>
      if t.buyId in orders && orders[t.buyId].account == a then
        var bought := match asset
          case Cash => -(t.price * t.qty)
          case Shares(y) => if y == t.symbol then t.qty else 0.0;
        if orders[t.buyId].side == Buy then bought else -bought
      else 0.0
    case _ => 0.0
  }

  function Brought(asset: Asset, orders: map<OrderId, Order>, es: seq<Event>, a: AccountId): real {
    if es == [] then 0.0
    else Brought(asset, orders, es[..|es| - 1], a) + Brings(asset, orders, es[|es| - 1], a)
  }

  /** The account owns what the log has brought it, and every trade is one of an order that is known. */
  ghost predicate Follows(asset: Asset, m: Venue, a: AccountId) {
    && Worth(asset, m.accounts.Get(a)) == Brought(asset, m.repo.orders, m.log, a)
    && forall t :: TradeExecuted(t) in m.log ==> t.buyId in m.repo.orders
  }

  lemma BroughtAppend(asset: Asset, orders: map<OrderId, Order>, es: seq<Event>, e: Event, a: AccountId)
    ensures Brought(asset, orders, es + [e], a) == Brought(asset, orders, es, a) + Brings(asset, orders, e, a)
  {
    hide Brings;
    assert (es + [e])[..|es|] == es;
  }

  lemma {:induction false} BroughtNothing(asset: Asset, orders: map<OrderId, Order>, es: seq<Event>, quiet: seq<Event>,
                                          a: AccountId)
    requires forall e :: e in quiet ==> Brings(asset, orders, e, a) == 0.0
    ensures Brought(asset, orders, es + quiet, a) == Brought(asset, orders, es, a)
    decreases |quiet|
  {
    if quiet == [] {
      assert es + quiet == es;
    } else {
      var n := |quiet| - 1;
      assert quiet[n] in quiet && es + quiet == es + quiet[..n] + [quiet[n]];
      BroughtNothing(asset, orders, es, quiet[..n], a);
      BroughtAppend(asset, orders, es + quiet[..n], quiet[n], a);
    }
  }

  /** Only whose an order is, and which side it is on, matters. */
  lemma {:induction false} BroughtSame(asset: Asset, orders: map<OrderId, Order>, orders': map<OrderId, Order>,
                                       es: seq<Event>, a: AccountId)
    requires forall t :: TradeExecuted(t) in es ==> t.buyId in orders
    requires forall id :: id in orders ==>
      id in orders' && orders'[id].account == orders[id].account && orders'[id].side == orders[id].side
    ensures Brought(asset, orders', es, a) == Brought(asset, orders, es, a)
  {
    if es != [] {
      var init, e := es[..|es| - 1], es[|es| - 1];
      assert es == init + [e];
      BroughtSame(asset, orders, orders', init, a);
      assert e in es;
    }
  }

  // ---------- a fill ----------

  lemma BuyWorth(asset: Asset, x: Account, id: OrderId, sym: Symbol, price: real, qty: real)
    ensures Worth(asset, MarketBuy(x, id, sym, price, qty)) == Worth(asset, x) +
      match asset case Cash => -(price * qty) case Shares(y) => if y == sym then qty else 0.0
  {
  }

  lemma SellWorth(asset: Asset, x: Account, id: OrderId, sym: Symbol, price: real, qty: real)
    ensures Worth(asset, MarketSell(x, id, sym, price, qty)) == Worth(asset, x) -
      match asset case Cash => -(price * qty) case Shares(y) => if y == sym then qty else 0.0
  {
    hide CostAfterSale;
  }

  lemma LegWorth(asset: Asset, x: Account, o: Order, q: Quote, orders: map<OrderId, Order>)
    requires o.id in orders && orders[o.id].account == o.account && orders[o.id].side == o.side && o.filled == 0.0
    ensures Worth(asset, MarketLeg(x, o.id, o.symbol, o.side, QuotedPrice(o.side, q), o.qty))
      == Worth(asset, x) + Brings(asset, orders, TradeExecuted(FillAt(o, q)), o.account)
  {
    BuyWorth(asset, x, o.id, o.symbol, q.ask, o.qty);
    SellWorth(asset, x, o.id, o.symbol, q.bid, o.qty);
    hide Worth, MarketBuy, MarketSell;
  }

  lemma {:induction false} FillFollows(asset: Asset, m: Venue, id: OrderId, q: Quote, a: AccountId)
    requires MarketInv(m) && id in m.repo.orders && MarketFills.Open(m.repo.orders[id]) && Follows(asset, m, a)
    ensures TryFill(m, id, q).Done? && Follows(asset, TryFill(m, id, q).value, a)
  {
    var o := m.repo.orders[id];
    hide Follows, MarketInv, Meets, Worth, Brings, MarketLeg, TryFill, Fillable, QuotedPrice, MarketOrderOk;
    InvParts(m, id);
    NothingFilledYet(id, o);
    TriedFills(m, id, q);
    MeetsWhen(o, q);
    FillUnfolds(m, o, q);
    if Meets(o, q) {
      var m' := TryFill(m, id, q).value;
      LegWorth(asset, m.accounts.Get(o.account), o, q, m'.repo.orders);
      FilledFollows(asset, m, o, q, m', a);
    }
  }

  lemma NothingFilledYet(id: OrderId, o: Order)
    requires MarketOrderOk(id, o) && MarketFills.Open(o)
    ensures o.filled == 0.0 && o.id == id && o.status == Routed
  {
  }

  lemma {:induction false} FilledFollows(asset: Asset, m: Venue, o: Order, q: Quote, m': Venue, a: AccountId)
    requires Follows(asset, m, a) && o.id in m.repo.orders && m.repo.orders[o.id] == o
    requires m'.repo.orders == m.repo.orders[o.id := Quoted(o, q)] && m'.log == m.log + FillLog(o, q)
    requires m'.accounts == m.accounts.Put(o.account, m'.accounts.Get(o.account))
    requires Worth(asset, m'.accounts.Get(o.account)) == Worth(asset, m.accounts.Get(o.account))
      + Brings(asset, m'.repo.orders, TradeExecuted(FillAt(o, q)), o.account)
    ensures Follows(asset, m', a)
  {
    var orders, orders' := m.repo.orders, m'.repo.orders;
    var t, f := TradeExecuted(FillAt(o, q)), OrderFilled(o.id, o.qty - o.filled, o.qty, Status.Filled);
    hide Worth, Meets, Brings, FillLog, Quoted;
    FillBrings(asset, orders', o, q, a);
    BroughtSame(asset, orders, orders', m.log, a);
    BroughtAppend(asset, orders', m.log, t, a);
    BroughtAppend(asset, orders', m.log + [t], f, a);
    assert m'.log == m.log + [t] + [f];
  }

  lemma {:induction false} FillBrings(asset: Asset, orders: map<OrderId, Order>, o: Order, q: Quote, a: AccountId)
    ensures var t, f := TradeExecuted(FillAt(o, q)), OrderFilled(o.id, o.qty - o.filled, o.qty, Status.Filled);
      && FillLog(o, q) == [t, f] && Brings(asset, orders, f, a) == 0.0
      && (o.id in orders && orders[o.id].account != a ==> Brings(asset, orders, t, a) == 0.0)
    ensures FillAt(o, q).buyId == o.id
    ensures Quoted(o, q).account == o.account && Quoted(o, q).side == o.side
  {
  }

  // ---------- runs ----------

  lemma {:induction false} ScanFollows(asset: Asset, m: Venue, ids: seq<OrderId>, sym: Symbol, q: Quote, a: AccountId)
    requires MarketInv(m) && Follows(asset, m, a) && forall id :: id in ids ==> id in m.repo.orders
    ensures ScanOrders(m, ids, sym, q).Done? && Follows(asset, ScanOrders(m, ids, sym, q).value, a)
    decreases |ids|
  {
    hide MarketInv, Follows, TryFill, AfterScan, Scanned;
    if ids != [] {
      assert ids == [ids[0]] + ids[1..];
      var m1 := ScanFirst(m, ids[0], sym, q);
      if Scanned(m.repo.orders[ids[0]], sym) {
        ScannedIsOpen(m, ids[0], sym);
        FillFollows(asset, m, ids[0], q, a);
      }
      ScanFollows(asset, m1, ids[1..], sym, q, a);
    }
  }

  lemma ScannedIsOpen(m: Venue, id: OrderId, sym: Symbol)
    requires MarketInv(m) && id in m.repo.orders && Scanned(m.repo.orders[id], sym)
    ensures MarketFills.Open(m.repo.orders[id])
  {
    InvParts(m, id);
  }

  lemma {:induction false} TickFollows(asset: Asset, m: Venue, sym: Symbol, q: Quote, a: AccountId)
    requires MarketInv(m) && Follows(asset, m, a)
    ensures MarketStep(m, Tick(sym, q)).Done? && Follows(asset, MarketStep(m, Tick(sym, q)).value, a)
  {
    TickIs(m, sym, q);
    IdsOnce(m);
    hide MarketInv, MarketStep, ScanOrders, Worth, Brought;
    ScanFollows(asset, m.(quotes := m.quotes[sym := q]), m.repo.ids, sym, q, a);
  }

  /** Locking, releasing and quiet events leave what an account owns. */
  lemma {:induction false} QuietFollows(asset: Asset, m: Venue, m': Venue, quiet: seq<Event>, a: AccountId)
    requires Follows(asset, m, a) && m'.log == m.log + quiet
    requires Worth(asset, m'.accounts.Get(a)) == Worth(asset, m.accounts.Get(a))
    requires forall e :: e in quiet ==> !e.AccountUpdated? && !e.TradeExecuted?
    requires forall id :: id in m.repo.orders ==>
      var o, r := m.repo.orders[id], m'.repo.orders; id in r && r[id].account == o.account && r[id].side == o.side
    ensures Follows(asset, m', a)
  {
    hide Worth;
    BroughtSame(asset, m.repo.orders, m'.repo.orders, m.log, a);
    BroughtNothing(asset, m'.repo.orders, m.log, quiet, a);
    hide Brought;
  }

  lemma {:induction false} IntakeFollows(asset: Asset, m: Venue, p: Placement, a: AccountId)
    requires Follows(asset, m, a) && p.id !in m.repo.orders
    ensures Follows(asset, AfterMarketIntake(m, p), a)
  {
    hide *;
    var m1 := AfterMarketIntake(m, p);
    IntakeIs(asset, m, p, a);
    QuietFollows(asset, m, m1, m1.log[|m.log|..], a);
  }

  lemma {:induction false} IntakeIs(asset: Asset, m: Venue, p: Placement, a: AccountId)
    requires p.id !in m.repo.orders
    ensures var m1 := AfterMarketIntake(m, p);
      && m1.log == m.log + m1.log[|m.log|..]
      && (forall e :: e in m1.log[|m.log|..] ==> !e.AccountUpdated? && !e.TradeExecuted?)
      && (forall id :: id in m.repo.orders ==> id in m1.repo.orders && m1.repo.orders[id] == m.repo.orders[id])
      && Worth(asset, m1.accounts.Get(a)) == Worth(asset, m.accounts.Get(a))
  {
    hide LockIn, Worth;
    LockKeepsWorth(asset, m.accounts.Get(p.account), p.id, p.symbol, p.side, p.qty, p.price);
    assert AfterMarketIntake(m, p).log == m.log + ([OrderPlaced(p)] + TakeIn(m.accounts, m.repo, p).events);
  }

  lemma {:induction false} MarketPlaceFollows(asset: Asset, m: Venue, p: Placement, a: AccountId)
    requires MarketInv(m) && p.id !in m.repo.orders && Admissible(User(Place(p))) && Follows(asset, m, a)
    ensures MarketStep(m, User(Place(p))).Done? && Follows(asset, MarketStep(m, User(Place(p))).value, a)
  {
    hide *;
    IntakeKeepsInv(m, p);
    PlaceIs(m, p);
    IntakeFollows(asset, m, p, a);
    var m1 := AfterMarketIntake(m, p);
    if p.symbol in m.quotes && m1.repo.orders[p.id].status == Routed {
      FillFollows(asset, m1, p.id, m.quotes[p.symbol], a);
    }
  }

  lemma {:induction false} MarketCancelFollows(asset: Asset, m: Venue, id: OrderId, a: AccountId)
    requires MarketInv(m) && Follows(asset, m, a)
    ensures MarketStep(m, User(Cancel(id))).Done? && Follows(asset, MarketStep(m, User(Cancel(id))).value, a)
  {
    hide *;
    MarketCancelAnswered(m, id);
    var m' := MarketStep(m, User(Cancel(id))).value;
    var open := id in m.repo.orders && m.repo.orders[id].status == Routed;
    var quiet := if open then [OrderCanceled(id)] else if id in m.repo.orders then [CancelRejected(id)] else [];
    assert m'.log == m.log + quiet;
    if open { GivenWorth(asset, m.accounts, m.repo.orders[id].account, id, m'.accounts, a); }
    QuietFollows(asset, m, m', quiet, a);
  }

  lemma {:induction false} GivenWorth(asset: Asset, l: Accounts, b: AccountId, id: OrderId, l': Accounts, a: AccountId)
    requires GivenBack(l, b, id, l')
    ensures Worth(asset, l'.Get(a)) == Worth(asset, l.Get(a))
  {
    hide Available, Locked, Reserve;
  }

  lemma {:induction false} MarketFundsFollow(asset: Asset, m: Venue, c: Command, a: AccountId)
    requires Follows(asset, m, a) && (c.CashIn? || c.CashOut? || c.SharesIn?)
    ensures MarketStep(m, User(c)).Done? && Follows(asset, MarketStep(m, User(c)).value, a)
  {
    hide *;
    MarketFundsAnswered(m, c);
    var m' := MarketStep(m, User(c)).value;
    var e := FundsBring(asset, m.repo.orders, m.accounts, m.log, c, m'.accounts, m'.log, a);
    MoreFollows(asset, m, m', e, a);
  }

  lemma {:induction false} MoreFollows(asset: Asset, m: Venue, m': Venue, e: Option<Event>, a: AccountId)
    requires Follows(asset, m, a) && m'.repo == m.repo
    requires match e
      case None => m'.log == m.log && Worth(asset, m'.accounts.Get(a)) == Worth(asset, m.accounts.Get(a))
      case Some(x) =>
        && m'.log == m.log + [x] && x.AccountUpdated?
        && Worth(asset, m'.accounts.Get(a))
           == Worth(asset, m.accounts.Get(a)) + Brings(asset, m.repo.orders, x, a)
    ensures Follows(asset, m', a)
  {
    hide Worth, Brings;
    if e.Some? { BroughtAppend(asset, m.repo.orders, m.log, e.value, a); }
    hide Brought;
  }

  lemma {:induction false} FundsBring(asset: Asset, orders: map<OrderId, Order>, l: Accounts, log: seq<Event>,
                                      c: Command, l': Accounts, log': seq<Event>, a: AccountId)
      returns (e: Option<Event>)
    requires (c.CashIn? || c.CashOut? || c.SharesIn?) && Answers.Answers(l, log, c, l', log')
    ensures match e
      case None => log' == log && Worth(asset, l'.Get(a)) == Worth(asset, l.Get(a))
      case Some(x) =>
        && log' == log + [x] && x.AccountUpdated?
        && Worth(asset, l'.Get(a)) == Worth(asset, l.Get(a)) + Brings(asset, orders, x, a)
  {
    hide Brings, Worth;
    match c
    case CashIn(b, amount) =>
      e := Some(AccountUpdated(b, amount, "", 0.0));
      UpdateBrings(asset, orders, b, amount, "", 0.0, a);
      CashWorth(asset, l.Get(b), amount);
    case CashOut(b, amount) =>
      e := if amount <= l.Get(b).cashAvail then Some(AccountUpdated(b, -amount, "", 0.0)) else None;
      UpdateBrings(asset, orders, b, -amount, "", 0.0, a);
      CashWorth(asset, l.Get(b), -amount);
    case SharesIn(b, sym, qty) =>
      e := Some(AccountUpdated(b, 0.0, sym, qty));
      UpdateBrings(asset, orders, b, 0.0, sym, qty, a);
      MoreShares(asset, l.Get(b), sym, qty, l'.Get(b));
  }

  lemma {:induction false} MoreShares(asset: Asset, x: Account, sym: Symbol, qty: real, x': Account)
    requires x' == x.(positions := x'.positions)
    requires forall y :: x'.Pos(y) == if y == sym then x.Pos(y).(avail := x.Pos(y).avail + qty) else x.Pos(y)
    ensures Worth(asset, x') == Worth(asset, x) + if asset == Shares(sym) then qty else 0.0
  {
    if asset.Shares? { assert x'.Pos(asset.symbol).locked == x.Pos(asset.symbol).locked; }
  }

  lemma {:induction false} UpdateBrings(asset: Asset, orders: map<OrderId, Order>, b: AccountId, cash: real,
                                        sym: Symbol, qty: real, a: AccountId)
    ensures Brings(asset, orders, AccountUpdated(b, cash, sym, qty), a) ==
      if a != b then 0.0 else if asset.Cash? then cash else if asset.symbol == sym then qty else 0.0
  {
  }

  lemma {:induction false} MarketStepFollows(asset: Asset, m: Venue, c: MarketCommand, a: AccountId)
    requires MarketInv(m) && Admissible(c) && (IsPlace(c) ==> PlacedBy(c) !in m.repo.orders) && Follows(asset, m, a)
    ensures MarketStep(m, c).Done? && Follows(asset, MarketStep(m, c).value, a)
  {
    hide MarketInv, MarketStep, Admissible, Brought, Worth;
    if c.Fetch? { FetchIs(m, c.symbol, c.quote); }
    else if c.Tick? { TickFollows(asset, m, c.symbol, c.quote, a); }
    else if c.command.Place? { MarketPlaceFollows(asset, m, c.command.placement, a); }
    else if c.command.Cancel? { MarketCancelFollows(asset, m, c.command.id, a); }
    else { MarketFundsFollow(asset, m, c.command, a); }
  }

  /**
   * In every run of this mode every account owns, of cash and of every symbol, what was brought in or taken out, less
   * what the trades of its BUY orders cost, plus what those of its SELL orders brought.
   */
  lemma {:induction false} MarketAccountsFollowLog(asset: Asset, cs: seq<MarketCommand>, a: AccountId)
    requires MarketWellFormed(cs)
    ensures MarketExec(cs).Done?
    ensures var m := MarketExec(cs).value; Worth(asset, m.accounts.Get(a)) == Brought(asset, m.repo.orders, m.log, a)
  {
    MarketRunFollows(asset, cs, a);
  }

  lemma {:induction false} MarketRunFollows(asset: Asset, cs: seq<MarketCommand>, a: AccountId)
    requires MarketWellFormed(cs)
    ensures MarketExec(cs).Done? && Follows(asset, MarketExec(cs).value, a)
  {
    if cs != [] {
      var init, c := cs[..|cs| - 1], cs[|cs| - 1];
      assert cs == init + [c];
      hide *;
      RunThenStep(init, c);
      MarketRunFollows(asset, init, a);
      MarketStepFollows(asset, MarketExec(init).value, c, a);
    }
  }
}

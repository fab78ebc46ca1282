/** Cash and shares are only moved: totals over all accounts equal what came in from outside. */
module Conservation {
  import opened Domain
  import opened Sums
  import opened Matching
  import opened Ledger
  import opened Orders
  import opened Exchange
  import opened Runs
  import opened LogShape
  import opened ReplayRuns

  /** What an account owns of an asset, free or locked. */
  function Worth(asset: Asset, x: Account): real { Available(asset, x) + Locked(asset, x) }

  ghost function Worths(asset: Asset, l: Accounts): map<AccountId, real> {
    map a | a in l.table :: Worth(asset, l.table[a])
  }

  ghost function Total(asset: Asset, l: Accounts): real { MapSum(Worths(asset, l)) }

  lemma NewAccountWorth(asset: Asset)
    ensures Worth(asset, NEW_ACCOUNT) == 0.0
  {
  }

  lemma WorthsPut(asset: Asset, l: Accounts, a: AccountId, x: Account)
    ensures Worths(asset, l)[a := Worth(asset, x)] == Worths(asset, l.Put(a, x))
  {
    hide Worth;
  }

  lemma PutTotal(asset: Asset, l: Accounts, a: AccountId, x: Account)
    ensures Total(asset, l.Put(a, x)) == Total(asset, l) - Worth(asset, l.Get(a)) + Worth(asset, x)
  {
    NewAccountWorth(asset);
    WorthsPut(asset, l, a, x);
    hide Worth;
    MapSumSet(Worths(asset, l), a, Worth(asset, x));
  }

  /** What a trade moves of an asset from its one party to the other. */
  function Moved(asset: Asset, sym: Symbol, price: real, qty: real): real {
    match asset
    case Cash => Value(price, qty)
    case Shares(s) => if s == sym then -qty else 0.0
  }

  lemma ReduceKeepsWorth(asset: Asset, x: Account, id: OrderId, cash: real, qty: real)
    ensures Worth(asset, ReduceLock(x, id, cash, qty)) == Worth(asset, x)
  {
  }

  lemma BuyLegWorth(asset: Asset, x: Account, id: OrderId, sym: Symbol, price: real, qty: real)
    ensures Worth(asset, BuyLeg(x, id, sym, price, qty)) == Worth(asset, x) - Moved(asset, sym, price, qty)
  {
    var p := x.Pos(sym);
    var x1 := x.SetPos(sym,
      p.(avail := p.avail + qty, cost := p.cost + Value(price, qty))).(cashLocked := x.cashLocked - Value(price, qty));
    ReduceKeepsWorth(asset, x1, id, Value(price, qty), 0.0);
  }

  lemma SellLegWorth(asset: Asset, x: Account, id: OrderId, sym: Symbol, price: real, qty: real)
    ensures Worth(asset, SellLeg(x, id, sym, price, qty)) == Worth(asset, x) + Moved(asset, sym, price, qty)
  {
    var p := x.Pos(sym).(locked := x.Pos(sym).locked - qty);
    var cost := CostAfterSale(p, qty);
    var x1 := x.SetPos(sym, p.(cost := cost)).(cashAvail := x.cashAvail + Value(price, qty));
    assert SellLeg(x, id, sym, price, qty) == ReduceLock(x1, id, 0.0, qty);
    hide CostAfterSale, SellLeg;
    ReduceKeepsWorth(asset, x1, id, 0.0, qty);
  }

  /** Settlement moves, also when buyer and seller are one account. */
  lemma SettleConserves(asset: Asset, l: Accounts, b: AccountId, s: AccountId, bid: OrderId, sid: OrderId,
                        sym: Symbol, price: real, qty: real)
    ensures Total(asset, Settle(l, b, s, bid, sid, sym, price, qty)) == Total(asset, l)
  {
    var l1 := l.Put(b, l.Get(b));
    var l2 := l1.Put(s, l1.Get(s));
    var x := BuyLeg(l2.Get(b), bid, sym, price, qty);
    var l3 := l2.Put(b, x);
    var y := SellLeg(l3.Get(s), sid, sym, price, qty);
    BuyLegWorth(asset, l2.Get(b), bid, sym, price, qty);
    SellLegWorth(asset, l3.Get(s), sid, sym, price, qty);
    assert Settle(l, b, s, bid, sid, sym, price, qty) == l3.Put(s, y);
    hide Worth, Moved, BuyLeg, SellLeg, Settle, Total;
    PutTotal(asset, l, b, l.Get(b));
    PutTotal(asset, l1, s, l1.Get(s));
    PutTotal(asset, l2, b, x);
    PutTotal(asset, l3, s, y);
  }

  lemma LockKeepsWorth(asset: Asset, x: Account, id: OrderId, sym: Symbol, side: Side, qty: real, price: Option<real>)
    ensures Worth(asset, LockIn(x, id, sym, side, qty, price).account) == Worth(asset, x)
  {
    var y := LockIn(x, id, sym, side, qty, price).account;
    if side == Buy && price.Some? {
      var cost := Value(price.value, qty);
      assert y.positions == x.positions && y.cashAvail + y.cashLocked == x.cashAvail + x.cashLocked;
    }
  }

  lemma ReleaseKeepsWorth(asset: Asset, x: Account, id: OrderId)
    ensures Worth(asset, Release(x, id)) == Worth(asset, x)
  {
  }

  lemma LockConserves(asset: Asset, l: Accounts, a: AccountId, id: OrderId, sym: Symbol, side: Side, qty: real,
                      price: Option<real>)
    ensures Total(asset, LockFunds(l, a, id, sym, side, qty, price).accounts) == Total(asset, l)
  {
    LockKeepsWorth(asset, l.Get(a), id, sym, side, qty, price);
    var y := LockIn(l.Get(a), id, sym, side, qty, price).account;
    hide Worth, LockIn, Total;
    PutTotal(asset, l, a, y);
  }

  lemma {:induction false} UnlockConserves(asset: Asset, l: Accounts, a: AccountId, id: OrderId)
    ensures Total(asset, Unlock(l, a, id)) == Total(asset, l)
  {
    ReleaseKeepsWorth(asset, l.Get(a), id);
    hide Worth, Release, Total;
    PutTotal(asset, l, a, Release(l.Get(a), id));
  }

  lemma {:induction false} TradesConserve(asset: Asset, d: Desk, ts: seq<Trade>)
    requires ApplyTrades(d, ts).Done?
    ensures Total(asset, ApplyTrades(d, ts).value.accounts) == Total(asset, d.accounts)
    decreases |ts|
  {
    if ts != [] {
      var t := ts[0];
      hide Total, Settle, ApplyTrade;
      TradeLog(d, t);
      TradeSettles(d, t);
      SettleConserves(asset, d.accounts, d.repo.orders[t.buyId].account, d.repo.orders[t.sellId].account,
                      t.buyId, t.sellId, t.symbol, t.price, t.qty);
      TradesConserve(asset, ApplyTrade(d, t).value, ts[1..]);
    }
  }

  /** What the log says came in from outside, less what went out. */
  function Inflow(asset: Asset, es: seq<Event>): real {
    if es == [] then 0.0 else Delta(asset, es[0]) + Inflow(asset, es[1..])
  }

  function Delta(asset: Asset, e: Event): real {
    if !e.AccountUpdated? then 0.0
    else match asset
      case Cash => e.cashDelta
      case Shares(sym) => if e.symbol == sym then e.qtyDelta else 0.0
  }

  lemma {:induction false} InflowAppend(asset: Asset, xs: seq<Event>, ys: seq<Event>)
    ensures Inflow(asset, xs + ys) == Inflow(asset, xs) + Inflow(asset, ys)
  {
    if xs == [] { assert xs + ys == ys; }
    else {
      assert (xs + ys)[1..] == xs[1..] + ys;
      InflowAppend(asset, xs[1..], ys);
    }
  }

  lemma {:induction false} NoInflow(asset: Asset, es: seq<Event>)
    requires forall e :: e in es ==> !e.AccountUpdated?
    ensures Inflow(asset, es) == 0.0
  {
    if es != [] {
      assert es[0] in es;
      NoInflow(asset, es[1..]);
    }
  }

  lemma {:induction false} TradeEventsKind(repo: Repo, ts: seq<Trade>)
    ensures forall e :: e in TradeEvents(repo, ts) ==> e.TradeExecuted? || e.TradeSettlement?
    decreases |ts|
  {
    if ts != [] { TradeEventsKind(repo, ts[1..]); }
  }

  lemma RoutingBringsNothing(asset: Asset, s: State, p: Placement)
    requires Accepts(s, p)
    ensures Inflow(asset, NewEvents(s, Place(p))) == 0.0
  {
    hide RoutingEvents;
    var sub := SubmitOrder(s.books, s.seen, p.symbol, p.side, Entry(NewOrder(p)));
    var d := DeskFor(s, p);
    assert forall e :: e in sub.remain ==> e.OrderRemainOnBook?;
    AcceptedEvents(s, p);
    hide *;
    var ts := TradesOf(s, p);
    var header := [OrderPlaced(p), OrderAccepted(p.id), OrderRouted(p.id, p.symbol)];
    TradeEventsKind(d.repo, ts);
    FillsAreInformational(d, ts);
    NoInflow(asset, header);
    NoInflow(asset, TradeEvents(d.repo, ts) + sub.remain);
    NoInflow(asset, FillEvents(d, ts));
    InflowAppend(asset, TradeEvents(d.repo, ts) + sub.remain, FillEvents(d, ts));
    InflowAppend(asset, header, TradeEvents(d.repo, ts) + sub.remain + FillEvents(d, ts));
  }

  lemma OrdersBringNothing(asset: Asset, s: State, c: Command)
    requires c.Place? || c.Cancel?
    ensures Inflow(asset, NewEvents(s, c)) == 0.0
  {
    if c.Place? && Accepts(s, c.placement) { RoutingBringsNothing(asset, s, c.placement); }
    else { NoInflow(asset, NewEvents(s, c)); }
  }

  lemma LoneInflow(asset: Asset, e: Event)
    ensures Inflow(asset, [e]) == Delta(asset, e)
  {
    assert [e][1..] == [];
  }

  lemma CashWorth(asset: Asset, x: Account, amount: real)
    ensures Worth(asset, x.(cashAvail := x.cashAvail + amount)) == Worth(asset, x) + if asset.Cash? then amount else 0.0
  {
  }

  lemma SharesWorth(asset: Asset, x: Account, sym: Symbol, qty: real)
    ensures Worth(asset, x.SetPos(sym, x.Pos(sym).(avail := x.Pos(sym).avail + qty)))
      == Worth(asset, x) + if asset == Shares(sym) then qty else 0.0
  {
  }

  lemma {:induction false} FundsWorth(asset: Asset, s: State, c: Command)
    requires c.CashIn? || c.CashOut? || c.SharesIn?
    ensures Worth(asset, FundsAfter(s.accounts.Get(c.account), c)) ==
      Worth(asset, s.accounts.Get(c.account)) + Inflow(asset, NewEvents(s, c))
  {
    hide RoutingEvents, LockFunds, Inflow, Worth;
    var x := s.accounts.Get(c.account);
    if NewEvents(s, c) != [] { LoneInflow(asset, NewEvents(s, c)[0]); } else { NoInflow(asset, []); }
    match c
    case CashIn(_, amount) => CashWorth(asset, x, amount);
    case CashOut(_, amount) => CashWorth(asset, x, -amount);
    case SharesIn(_, sym, qty) => SharesWorth(asset, x, sym, qty);
  }

  lemma FundsConserve(asset: Asset, s: State, c: Command)
    requires c.CashIn? || c.CashOut? || c.SharesIn?
    ensures Step(s, c).Done?
    ensures Total(asset, Step(s, c).value.accounts) == Total(asset, s.accounts) + Inflow(asset, NewEvents(s, c))
  {
    FundsStep(s, c);
    FundsWorth(asset, s, c);
    hide Worth, FundsAfter, Total, NewEvents, Step;
    PutTotal(asset, s.accounts, c.account, FundsAfter(s.accounts.Get(c.account), c));
  }

  lemma {:induction false} StepConserves(asset: Asset, s: State, c: Command)
    requires Step(s, c).Done?
    ensures Total(asset, Step(s, c).value.accounts) == Total(asset, s.accounts) + Inflow(asset, NewEvents(s, c))
  {
    hide Total;
    match c
    case Place(p) =>
      OrdersBringNothing(asset, s, c);
      LockConserves(asset, s.accounts, p.account, p.id, p.symbol, p.side, p.qty, p.price);
      if Accepts(s, p) {
        PlaceUnfolds(s, p);
        TradesConserve(asset, DeskFor(s, p), TradesOf(s, p));
      }
    case Cancel(id) =>
      OrdersBringNothing(asset, s, c);
      if id in s.repo.orders { UnlockConserves(asset, s.accounts, s.repo.orders[id].account, id); }
    case _ =>
      FundsConserve(asset, s, c);
  }

  /**
   * Conservation: after any run whatever, total cash over all accounts is what was deposited less what was
   * withdrawn, and total shares of every symbol are the shares brought in.
   */
  lemma {:induction false} RunsConserve(asset: Asset, cmds: seq<Command>)
    requires Exec(cmds).Done?
    ensures Total(asset, Exec(cmds).value.accounts) == Inflow(asset, Exec(cmds).value.log)
  {
    if cmds == [] {
      assert Worths(asset, NO_ACCOUNTS) == map[];
    } else {
      var init, c := cmds[..|cmds| - 1], cmds[|cmds| - 1];
      RunsConserve(asset, init);
      var s := Exec(init).value;
      StepConserves(asset, s, c);
      StepLog(s, c);
      InflowAppend(asset, s.log, NewEvents(s, c));
    }
  }
}

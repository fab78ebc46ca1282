/** What each command appends to the log. */
module LogShape {
  import opened Domain
  import opened Matching
  import opened Ledger
  import opened Orders
  import opened Exchange
  import opened Agreement
  import opened Runs

  function SettlementOf(repo: Repo, t: Trade): Event
    requires t.buyId in repo.orders && t.sellId in repo.orders
  {
    TradeSettlement(repo.orders[t.buyId].account, repo.orders[t.sellId].account, t.buyId, t.sellId, t.symbol, t.price,
      t.qty)
  }

  /** Per trade: the trade, then its settlement. */
  function TradeEvents(repo: Repo, ts: seq<Trade>): seq<Event> {
    if ts == [] || ts[0].buyId !in repo.orders || ts[0].sellId !in repo.orders then []
    else [TradeExecuted(ts[0]), SettlementOf(repo, ts[0])] + TradeEvents(repo, ts[1..])
  }

  /** Per trade: the fill of the BUY order, then that of the SELL order, each with the state it left the order in. */
  function FillEvents(d: Desk, ts: seq<Trade>): seq<Event>
    decreases |ts|
  {
    if ts == [] || ApplyTrade(d, ts[0]).Raised? then []
    else
      var d1 := ApplyTrade(d, ts[0]).value;
      d1.fills[|d.fills|..] + FillEvents(d1, ts[1..])
  }

  /** Accounts and identity of orders never change while trades are applied. */
  predicate SameOwners(r1: Repo, r2: Repo) {
    r1.orders.Keys == r2.orders.Keys && forall id :: id in r1.orders ==> r1.orders[id].account == r2.orders[id].account
  }

  lemma {:induction false} SameOwnersSameEvents(r1: Repo, r2: Repo, ts: seq<Trade>)
    requires SameOwners(r1, r2)
    ensures TradeEvents(r1, ts) == TradeEvents(r2, ts)
    decreases |ts|
  {
    if ts != [] { SameOwnersSameEvents(r1, r2, ts[1..]); }
  }

  lemma {:induction false} TradeLog(d: Desk, t: Trade)
    requires ApplyTrade(d, t).Done?
    ensures var d1 := ApplyTrade(d, t).value;
      && t.buyId in d.repo.orders && t.sellId in d.repo.orders
      && SameOwners(d.repo, d1.repo)
      && d1.log == d.log + [TradeExecuted(t), SettlementOf(d.repo, t)]
      && |d1.fills| == |d.fills| + 2 && d1.fills == d.fills + d1.fills[|d.fills|..]
  {
    hide TrySettle;
  }

  /** The accounts after a trade are those of its settlement, which did not raise. */
  lemma TradeSettles(d: Desk, t: Trade)
    requires ApplyTrade(d, t).Done? && t.buyId in d.repo.orders && t.sellId in d.repo.orders
    ensures var buyer, seller := d.repo.orders[t.buyId].account, d.repo.orders[t.sellId].account;
      TrySettle(d.accounts, buyer, seller, t.buyId, t.sellId, t.symbol, t.price, t.qty)
        == Done(ApplyTrade(d, t).value.accounts)
  {
    hide TrySettle;
  }

  lemma Assoc<T>(a: seq<T>, b: seq<T>, c: seq<T>)
    ensures (a + b) + c == a + (b + c)
  {
  }

  lemma SameTail<T>(xs: seq<T>, ys: seq<T>, zs: seq<T>)
    requires xs + ys == xs + zs
    ensures ys == zs
  {
    assert ys == (xs + ys)[|xs|..] && zs == (xs + zs)[|xs|..];
  }

  /** Applying trades extends the log by exactly these events. */
  lemma {:induction false} DeskLog(d: Desk, ts: seq<Trade>)
    requires ApplyTrades(d, ts).Done?
    ensures ApplyTrades(d, ts).value.log == d.log + TradeEvents(d.repo, ts)
    decreases |ts|
  {
    if ts != [] {
      var d1 := ApplyTrade(d, ts[0]).value;
      TradeLog(d, ts[0]);
      SameOwnersSameEvents(d.repo, d1.repo, ts[1..]);
      DeskLog(d1, ts[1..]);
      hide ApplyTrade;
      Assoc(d.log, [TradeExecuted(ts[0]), SettlementOf(d.repo, ts[0])], TradeEvents(d.repo, ts[1..]));
    }
  }

  /** ... and the fill queue by exactly these. */
  lemma {:induction false} DeskFills(d: Desk, ts: seq<Trade>)
    requires ApplyTrades(d, ts).Done?
    ensures ApplyTrades(d, ts).value.fills == d.fills + FillEvents(d, ts)
    decreases |ts|
  {
    if ts != [] {
      var d1 := ApplyTrade(d, ts[0]).value;
      TradeLog(d, ts[0]);
      DeskFills(d1, ts[1..]);
      hide ApplyTrade;
      Assoc(d.fills, d1.fills[|d.fills|..], FillEvents(d1, ts[1..]));
    }
  }

  /** The log entries of an accepted placement after it is routed. */
  function RoutingEvents(s: State, p: Placement): seq<Event> {
    var d := DeskFor(s, p);
    var sub := SubmitOrder(s.books, s.seen, p.symbol, p.side, Entry(NewOrder(p)));
    TradeEvents(d.repo, sub.trades) + sub.remain + FillEvents(d, sub.trades)
  }

  function NewEvents(s: State, c: Command): seq<Event> {
    match c
    case CashIn(a, amount) => [AccountUpdated(a, amount, "", 0.0)]
    case CashOut(a, amount) => if s.accounts.Get(a).cashAvail < amount then []
      else [AccountUpdated(a, -amount, "", 0.0)]
    case SharesIn(a, sym, qty) => [AccountUpdated(a, 0.0, sym, qty)]
    case Place(p) =>
      (match LockFunds(s.accounts, p.account, p.id, p.symbol, p.side, p.qty, p.price).rejected
       case Some(reason) => [OrderPlaced(p), OrderRejected(p.id, reason)]
       case None => [OrderPlaced(p), OrderAccepted(p.id), OrderRouted(p.id, p.symbol)] + RoutingEvents(s, p))
    case Cancel(id) =>
      if id !in s.repo.orders then []
      else if !s.repo.orders[id].IsCancelable() then [CancelRejected(id)]
      else [OrderCanceled(id)]
  }

  /** The log only ever grows, and by these events. */
  lemma {:induction false} StepLog(s: State, c: Command)
    requires Step(s, c).Done?
    ensures Step(s, c).value.log == s.log + NewEvents(s, c)
  {
    if c.Place? {
      PlaceLog(s, c.placement);
    }
  }

  /** An accepted placement is the application of its trades to the desk. */
  lemma {:induction false} PlaceUnfolds(s: State, p: Placement)
    requires Accepts(s, p)
    ensures var d := DeskFor(s, p);
      var sub := SubmitOrder(s.books, s.seen, p.symbol, p.side, Entry(NewOrder(p)));
      PlaceOrder(s, p) ==
        match ApplyTrades(d, sub.trades)
        case Raised(e) => Raised(e)
        case Done(x) => Done(State(x.accounts, x.repo, sub.books, sub.seen, x.log + sub.remain + x.fills))
  {
    var o := NewOrder(p).(status := Routed);
    assert Entry(o) == Entry(NewOrder(p));
    var d := DeskFor(s, p);
    assert s.log + [OrderPlaced(p)] + [OrderAccepted(p.id), OrderRouted(p.id, p.symbol)] == d.log;
    assert PlaceOrder(s, p) == Route(s.(accounts := d.accounts, repo := d.repo, log := d.log), o);
  }

  /** The trades an accepted placement leads to. */
  function TradesOf(s: State, p: Placement): seq<Trade> {
    SubmitOrder(s.books, s.seen, p.symbol, p.side, Entry(NewOrder(p))).trades
  }

  predicate Accepts(s: State, p: Placement) {
    LockFunds(s.accounts, p.account, p.id, p.symbol, p.side, p.qty, p.price).rejected == None
  }

  /** In an agreeing state the trades of an accepted placement settle, and give the next state's accounts and orders. */
  lemma {:induction false} AcceptedSettles(s: State, p: Placement)
    requires Inv(s) && p.id !in s.repo.orders && p.qty > 0.0 && SaneShape(p.side, p.otype, p.price) && Accepts(s, p)
    ensures Step(s, Place(p)).Done? && ApplyTrades(DeskFor(s, p), TradesOf(s, p)).Done?
    ensures var d := ApplyTrades(DeskFor(s, p), TradesOf(s, p)).value;
      Step(s, Place(p)).value.accounts == d.accounts && Step(s, Place(p)).value.repo == d.repo
  {
    hide PlaceOrder, SubmitOrder, LockFunds, Inv;
    PlaceKeepsInv(s, p);
    PlaceUnfolds(s, p);
  }

  lemma AcceptedEvents(s: State, p: Placement)
    requires Accepts(s, p)
    ensures var d := DeskFor(s, p);
      var sub := SubmitOrder(s.books, s.seen, p.symbol, p.side, Entry(NewOrder(p)));
      && sub.trades == TradesOf(s, p)
      && d.accounts == LockFunds(s.accounts, p.account, p.id, p.symbol, p.side, p.qty, p.price).accounts
      && NewEvents(s, Place(p)) == [OrderPlaced(p), OrderAccepted(p.id), OrderRouted(p.id, p.symbol)]
         + (TradeEvents(d.repo, sub.trades) + sub.remain + FillEvents(d, sub.trades))
  {
  }

  lemma {:induction false} PlaceLog(s: State, p: Placement)
    requires PlaceOrder(s, p).Done?
    ensures PlaceOrder(s, p).value.log == s.log + NewEvents(s, Place(p))
  {
    if LockFunds(s.accounts, p.account, p.id, p.symbol, p.side, p.qty, p.price).rejected == None {
      AcceptedLog(s, p);
    }
  }

  lemma DeskLogIs(s: State, p: Placement)
    ensures DeskFor(s, p).log == s.log + [OrderPlaced(p), OrderAccepted(p.id), OrderRouted(p.id, p.symbol)]
    ensures DeskFor(s, p).fills == []
  {
  }

  lemma {:induction false} AcceptedLog(s: State, p: Placement)
    requires PlaceOrder(s, p).Done? && Accepts(s, p)
    ensures PlaceOrder(s, p).value.log == s.log + NewEvents(s, Place(p))
  {
    hide *;
    PlaceUnfolds(s, p);
    AcceptedEvents(s, p);
    DeskLogIs(s, p);
    var d := DeskFor(s, p);
    var sub := SubmitOrder(s.books, s.seen, p.symbol, p.side, Entry(NewOrder(p)));
    DeskLog(d, sub.trades);
    DeskFills(d, sub.trades);
    Assoc(d.log, TradeEvents(d.repo, sub.trades), sub.remain);
    Assoc(d.log, TradeEvents(d.repo, sub.trades) + sub.remain, FillEvents(d, sub.trades));
    Assoc(s.log, [OrderPlaced(p), OrderAccepted(p.id), OrderRouted(p.id, p.symbol)],
          TradeEvents(d.repo, sub.trades) + sub.remain + FillEvents(d, sub.trades));
  }

  /** A cancellation marks one order, or is refused and changes no order. */
  lemma CancelCases(s: State, id: OrderId)
    requires Inv(s)
    ensures Step(s, Cancel(id)).Done?
    ensures id in s.repo.orders && s.repo.orders[id].IsCancelable() ==>
      && NewEvents(s, Cancel(id)) == [OrderCanceled(id)]
      && Step(s, Cancel(id)).value.repo == Repo(s.repo.ids, s.repo.orders[id := s.repo.orders[id].(status := Canceled)])
    ensures !(id in s.repo.orders && s.repo.orders[id].IsCancelable()) ==>
      && NewEvents(s, Cancel(id)) == (if id in s.repo.orders then [CancelRejected(id)] else [])
      && Step(s, Cancel(id)).value.repo == s.repo
  {
    hide LedgerAgrees;
    if id in s.repo.orders { assert OrderOk(id, s.repo.orders[id]); }
  }

  // ---------- what is said to remain ----------

  /** An accepted placement reports a remainder exactly if the order then rests, and reports what remains of it. */
  lemma {:induction false} RemainderIsTrue(s: State, p: Placement)
    requires Inv(s) && p.id !in s.repo.ids && p.qty > 0.0 && SaneShape(p.side, p.otype, p.price) && Accepts(s, p)
    ensures Step(s, Place(p)).Done? && p.id in Step(s, Place(p)).value.repo.orders
    ensures var o := Step(s, Place(p)).value.repo.orders[p.id];
      SubmitOrder(s.books, s.seen, p.symbol, p.side, Entry(NewOrder(p))).remain ==
        if Live(o) then [OrderRemainOnBook(p.id, p.symbol, p.side, o.Remaining(), p.qty)] else []
  {
    StepKeepsInv(s, Place(p));
    NotSeen(s, p);
    hide Inv, LockFunds, SaneShape;
    PlaceUnfolds(s, p);
    AcceptedSettles(s, p);
    TradesKeepTerms(DeskFor(s, p), TradesOf(s, p));
    hide ApplyTrades, PlaceOrder;
    RestsAs(Step(s, Place(p)).value, p);
  }

  lemma NotSeen(s: State, p: Placement)
    requires Inv(s) && p.id !in s.repo.ids
    ensures p.id !in s.repo.orders && p.id !in s.seen
  {
  }

  /** What the book of an agreeing state holds of an order. */
  lemma {:induction false} RestsAs(s: State, p: Placement)
    requires Inv(s) && p.id in s.repo.orders && SameTerms(NewOrder(p), s.repo.orders[p.id])
    ensures var o := s.repo.orders[p.id];
      Remainder(BookOf(s.books, p.symbol), p.symbol, p.side, p.id, p.qty) ==
        if Live(o) then [OrderRemainOnBook(p.id, p.symbol, p.side, o.Remaining(), p.qty)] else []
  {
    var o := s.repo.orders[p.id];
    var es := BookOf(s.books, p.symbol).On(p.side);
    assert OrderOk(p.id, o) && SideMatches(s.repo, s.books, p.symbol, p.side);
    AgreeingSideOk(s.repo.ids, s.repo.orders, p.symbol, p.side, es);
    FindMeans(es, p.id);
    if Live(o) { assert Entry(o) in es; }
  }

  // ---------- the terms of an order ----------

  /** Account, symbol, side, type, quantity, price and time of an order never change. */
  predicate SameTerms(o: Order, o': Order) { o' == o.(status := o'.status, filled := o'.filled) }

  predicate KeepsTerms(r: Repo, r': Repo) {
    r.orders.Keys <= r'.orders.Keys && forall id :: id in r.orders ==> SameTerms(r.orders[id], r'.orders[id])
  }

  lemma TradeKeepsTerms(d: Desk, t: Trade)
    requires ApplyTrade(d, t).Done?
    ensures KeepsTerms(d.repo, ApplyTrade(d, t).value.repo)
    ensures d.repo.orders.Keys == ApplyTrade(d, t).value.repo.orders.Keys
  {
    hide TrySettle;
  }

  lemma {:induction false} TradesKeepTerms(d: Desk, ts: seq<Trade>)
    requires ApplyTrades(d, ts).Done?
    ensures KeepsTerms(d.repo, ApplyTrades(d, ts).value.repo)
    ensures d.repo.orders.Keys == ApplyTrades(d, ts).value.repo.orders.Keys
    decreases |ts|
  {
    if ts != [] {
      TradeKeepsTerms(d, ts[0]);
      hide ApplyTrade;
      TradesKeepTerms(ApplyTrade(d, ts[0]).value, ts[1..]);
    }
  }

  /** Whatever the command, orders keep their terms, and the only new one is the one placed, with its own terms. */
  lemma {:induction false} StepKeepsTerms(s: State, c: Command)
    requires Step(s, c).Done? && (c.Place? ==> c.placement.id !in s.repo.orders)
    ensures KeepsTerms(s.repo, Step(s, c).value.repo)
    ensures forall id :: id in Step(s, c).value.repo.orders && id !in s.repo.orders ==>
      c.Place? && c.placement.id == id && SameTerms(NewOrder(c.placement), Step(s, c).value.repo.orders[id])
  {
    if c.Place? && Accepts(s, c.placement) {
      PlaceUnfolds(s, c.placement);
      TradesKeepTerms(DeskFor(s, c.placement), TradesOf(s, c.placement));
      var r := DeskFor(s, c.placement).repo;
      assert r.orders == s.repo.orders[c.placement.id := NewOrder(c.placement).(status := Routed)];
    }
  }
}

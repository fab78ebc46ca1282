/** What the log reports of fills is true: order by order they add up, and each tells the state it left the order in. */
module FillReports {
  import opened Domain
  import opened PriceTime
  import opened Matching
  import opened Ledger
  import opened Orders
  import opened Exchange
  import opened Agreement
  import opened Settling
  import opened Runs
  import opened LogShape
  import opened ReplayRuns
  import opened Conservation
  import opened ExactLocks
  import opened MarketMode
  import opened MarketRuns
  import opened MarketFills
  import opened Answers

  /** The quantity reported as filled of an order. */
  function Reported(es: seq<Event>, id: OrderId): real {
    if es == [] then 0.0
    else
      var e := es[|es| - 1];
      Reported(es[..|es| - 1], id) + if e.OrderFilled? && e.id == id then e.filledQty else 0.0
  }

  /**
   * A report of a fill after others: something was filled, the total is the sum of all reports so far, it is within
   * the order, and the order is said to be filled exactly if the total is all of it.
   */
  predicate ReportOk(orders: map<OrderId, Order>, before: seq<Event>, e: Event) {
    e.OrderFilled? ==>
      && e.id in orders && 0.0 < e.filledQty
      && e.cumulativeQty == Reported(before, e.id) + e.filledQty && e.cumulativeQty <= orders[e.id].qty
      && e.status == if e.cumulativeQty == orders[e.id].qty then Status.Filled else PartiallyFilled
  }

  predicate ReportsOk(orders: map<OrderId, Order>, es: seq<Event>) {
    forall k :: 0 <= k < |es| ==> ReportOk(orders, es[..k], es[k])
  }

  /** Of every order exactly what is filled has been reported. */
  ghost predicate AllReported(orders: map<OrderId, Order>, es: seq<Event>) {
    forall id :: Reported(es, id) == if id in orders then orders[id].filled else 0.0
  }

  ghost predicate Truthful(orders: map<OrderId, Order>, es: seq<Event>) {
    ReportsOk(orders, es) && AllReported(orders, es)
  }

  // ---------- appending ----------

  lemma ReportedAppend(es: seq<Event>, e: Event, id: OrderId)
    ensures Reported(es + [e], id) == Reported(es, id) + if e.OrderFilled? && e.id == id then e.filledQty else 0.0
  {
    assert (es + [e])[..|es|] == es;
  }

  lemma ReportsAppend(orders: map<OrderId, Order>, es: seq<Event>, e: Event)
    requires ReportsOk(orders, es) && ReportOk(orders, es, e)
    ensures ReportsOk(orders, es + [e])
  {
    hide ReportOk;
    forall k | 0 <= k <= |es| ensures ReportOk(orders, (es + [e])[..k], (es + [e])[k]) {
      assert (es + [e])[..k] == es[..k];
      assert k == |es| ==> es[..k] == es;
    }
  }

  /** Other events report nothing. */
  lemma {:induction false} QuietAppend(orders: map<OrderId, Order>, es: seq<Event>, quiet: seq<Event>)
    requires Truthful(orders, es) && forall e :: e in quiet ==> !e.OrderFilled?
    ensures Truthful(orders, es + quiet)
    decreases |quiet|
  {
    if quiet == [] {
      assert es + quiet == es;
    } else {
      var e := quiet[0];
      assert e in quiet;
      ReportsAppend(orders, es, e);
      forall id ensures Reported(es + [e], id) == Reported(es, id) { ReportedAppend(es, e, id); }
      hide ReportsOk;
      QuietAppend(orders, es + [e], quiet[1..]);
      assert es + [e] + quiet[1..] == es + quiet;
    }
  }

  /** Orders may change but for their quantities. */
  lemma SameQuantities(orders: map<OrderId, Order>, orders': map<OrderId, Order>, es: seq<Event>)
    requires ReportsOk(orders, es)
    requires forall id :: id in orders ==> id in orders' && orders'[id].qty == orders[id].qty
    ensures ReportsOk(orders', es)
  {
    hide Reported;
    forall k | 0 <= k < |es| ensures ReportOk(orders', es[..k], es[k]) {
      assert ReportOk(orders, es[..k], es[k]);
    }
  }

  /** An order that does not have anything filled yet, or whose fill does not change, may be put in. */
  lemma OrderPut(orders: map<OrderId, Order>, es: seq<Event>, o: Order)
    requires Truthful(orders, es)
    requires if o.id in orders then o.filled == orders[o.id].filled && o.qty == orders[o.id].qty else o.filled == 0.0
    ensures Truthful(orders[o.id := o], es)
  {
    SameQuantities(orders, orders[o.id := o], es);
    hide ReportsOk, Reported;
  }

  /** A fill and its report. */
  lemma FillReported(orders: map<OrderId, Order>, es: seq<Event>, o: Order, qty: real)
    requires Truthful(orders, es) && o.id in orders && orders[o.id] == o && Live(o)
    requires 0.0 < qty <= o.Remaining()
    ensures var o' := AfterFill(o, qty); Truthful(orders[o.id := o'], es + [FillEvent(o', qty)])
  {
    var o' := AfterFill(o, qty);
    var e := FillEvent(o', qty);
    hide Reported;
    assert ReportOk(orders, es, e);
    ReportsAppend(orders, es, e);
    SameQuantities(orders, orders[o.id := o'], es + [e]);
    hide ReportsOk;
    forall id
      ensures Reported(es + [e], id) == (if id in orders[o.id := o'] then orders[o.id := o'][id].filled else 0.0)
    {
      ReportedAppend(es, e, id);
    }
  }

  // ---------- order against order ----------

  /** One round of the crossing loop: both fills are reported. */
  lemma {:induction false} CrossReported(d: Desk, books: map<Symbol, Book>, sym: Symbol, es: seq<Event>)
    requires Agrees(d.accounts, d.repo, books) && Crossable(BookOf(books, sym)) && Truthful(d.repo.orders, es)
    ensures var b := BookOf(books, sym);
      var r := ApplyTrade(d, TradeBetween(sym, b.bids[0], b.asks[0]));
      && r.Done? && |d.fills| <= |r.value.fills| && Truthful(r.value.repo.orders, es + r.value.fills[|d.fills|..])
  {
    var b := BookOf(books, sym);
    var t := TradeBetween(sym, b.bids[0], b.asks[0]);
    CrossBooks(d.repo, books, sym, t.qty);
    var buy, sell := d.repo.orders[t.buyId], d.repo.orders[t.sellId];
    assert OrderOk(t.buyId, buy) && OrderOk(t.sellId, sell);
    FillAccepted(t.buyId, buy, t.qty);
    FillAccepted(t.sellId, sell, t.qty);
    TradeUnfolds(d, t, buy, sell);
    hide Agrees, Truthful, ApplyTrade;
    BothReported(d.repo.orders, es, buy, sell, t.qty);
    var two := [FillEvent(AfterFill(buy, t.qty), t.qty), FillEvent(AfterFill(sell, t.qty), t.qty)];
    assert ApplyTrade(d, t).value.fills == d.fills + two;
  }

  lemma BothReported(orders: map<OrderId, Order>, es: seq<Event>, buy: Order, sell: Order, qty: real)
    requires Truthful(orders, es) && buy.id in orders && orders[buy.id] == buy && Live(buy)
    requires sell.id in orders && orders[sell.id] == sell && Live(sell) && buy.id != sell.id
    requires 0.0 < qty <= buy.Remaining() && qty <= sell.Remaining()
    ensures var b, s := AfterFill(buy, qty), AfterFill(sell, qty);
      Truthful(orders[buy.id := b][sell.id := s], es + [FillEvent(b, qty), FillEvent(s, qty)])
  {
    hide Truthful;
    var b, s := AfterFill(buy, qty), AfterFill(sell, qty);
    FillReported(orders, es, buy, qty);
    FillReported(orders[buy.id := b], es + [FillEvent(b, qty)], sell, qty);
    assert es + [FillEvent(b, qty)] + [FillEvent(s, qty)] == es + [FillEvent(b, qty), FillEvent(s, qty)];
  }

  /** The whole loop. */
  lemma {:induction false} LoopReported(d: Desk, books: map<Symbol, Book>, sym: Symbol, es: seq<Event>)
    requires Agrees(d.accounts, d.repo, books) && Truthful(d.repo.orders, es)
    ensures var ts := Match(sym, BookOf(books, sym)).trades;
      ApplyTrades(d, ts).Done? && Truthful(ApplyTrades(d, ts).value.repo.orders, es + FillEvents(d, ts))
    decreases |BookOf(books, sym).bids| + |BookOf(books, sym).asks|
  {
    hide Agrees, Match, ApplyTrade, TradeBetween, Truthful;
    var b := BookOf(books, sym);
    MatchUnfolds(sym, b);
    if Crossable(b) {
      var t := TradeBetween(sym, b.bids[0], b.asks[0]);
      CrossAgrees(d, books, sym);
      CrossReported(d, books, sym, es);
      var d1 := ApplyTrade(d, t).value;
      var two := d1.fills[|d.fills|..];
      LoopReported(d1, books[sym := CrossOnce(b)], sym, es + two);
      FirstRoundOfLoop(d, sym, b);
      var rest := Match(sym, CrossOnce(b)).trades;
      FirstFills(d, t, rest);
      assert es + two + FillEvents(d1, rest) == es + (two + FillEvents(d1, rest));
    } else {
      assert es + [] == es;
    }
  }

  lemma FirstFills(d: Desk, t: Trade, ts: seq<Trade>)
    requires ApplyTrade(d, t).Done? && |d.fills| <= |ApplyTrade(d, t).value.fills|
    ensures var d1 := ApplyTrade(d, t).value; FillEvents(d, [t] + ts) == d1.fills[|d.fills|..] + FillEvents(d1, ts)
  {
    hide ApplyTrade;
    assert ([t] + ts)[1..] == ts;
  }

  lemma {:induction false} AcceptedReported(s: State, p: Placement)
    requires Inv(s) && p.id !in s.repo.ids && p.qty > 0.0 && SaneShape(p.side, p.otype, p.price) && Accepts(s, p)
    requires Truthful(s.repo.orders, s.log)
    ensures Step(s, Place(p)).Done?
    ensures Truthful(Step(s, Place(p)).value.repo.orders, Step(s, Place(p)).value.log)
  {
    hide *;
    var d, o, ts := DeskFor(s, p), NewOrder(p).(status := Routed), TradesOf(s, p);
    NotSeen(s, p);
    TradesAreMatched(s, p);
    IntakeReports(s, p);
    AcceptedAgrees(s, p);
    AcceptedSettles(s, p);
    AcceptedEvents(s, p);
    StepLog(s, Place(p));
    var header := [OrderPlaced(p), OrderAccepted(p.id), OrderRouted(p.id, p.symbol)];
    var quiet := TradeEvents(d.repo, ts) + RemainOf(s, p);
    TradeEventsKind(d.repo, ts);
    OnlyRemainders(s, p);
    QuietAppend(d.repo.orders, s.log + header, quiet);
    LoopReported(d, BooksWith(s.books, o), p.symbol, s.log + header + quiet);
    assert s.log + header + quiet + FillEvents(d, ts) == s.log + (header + (quiet + FillEvents(d, ts)));
  }

  function RemainOf(s: State, p: Placement): seq<Event> {
    SubmitOrder(s.books, s.seen, p.symbol, p.side, Entry(NewOrder(p))).remain
  }

  lemma TradesAreMatched(s: State, p: Placement)
    requires p.id !in s.seen
    ensures LockFunds(s.accounts, p.account, p.id, p.symbol, p.side, p.qty, p.price).rejected == None <==> Accepts(s, p)
    ensures TradesOf(s, p)
      == Match(p.symbol, BookOf(BooksWith(s.books, NewOrder(p).(status := Routed)), p.symbol)).trades
    ensures SubmitOrder(s.books, s.seen, p.symbol, p.side, Entry(NewOrder(p))).remain == RemainOf(s, p)
    ensures DeskFor(s, p).accounts == LockFunds(s.accounts, p.account, p.id, p.symbol, p.side, p.qty, p.price).accounts
    ensures DeskFor(s, p).repo == s.repo.Add(NewOrder(p).(status := Routed))
  {
    hide Match, Insort, LockFunds;
    assert Entry(NewOrder(p).(status := Routed)) == Entry(NewOrder(p));
  }

  /** Taking an order in, accepted or not, reports nothing. */
  lemma IntakeReports(s: State, p: Placement)
    requires p.id !in s.repo.orders && Truthful(s.repo.orders, s.log)
    ensures var o := NewOrder(p).(status := Routed);
      Truthful(s.repo.Add(o).orders, s.log + [OrderPlaced(p), OrderAccepted(p.id), OrderRouted(p.id, p.symbol)])
    ensures forall reason :: var o := NewOrder(p).(status := Rejected);
      Truthful(s.repo.Add(o).orders, s.log + [OrderPlaced(p), OrderRejected(p.id, reason)])
  {
    hide Truthful;
    var o, r := NewOrder(p).(status := Routed), NewOrder(p).(status := Rejected);
    OrderPut(s.repo.orders, s.log, o);
    OrderPut(s.repo.orders, s.log, r);
    QuietAppend(s.repo.orders[p.id := o], s.log, [OrderPlaced(p), OrderAccepted(p.id), OrderRouted(p.id, p.symbol)]);
    forall reason ensures Truthful(s.repo.orders[p.id := r], s.log + [OrderPlaced(p), OrderRejected(p.id, reason)]) {
      QuietAppend(s.repo.orders[p.id := r], s.log, [OrderPlaced(p), OrderRejected(p.id, reason)]);
    }
  }

  lemma {:induction false} RejectedReported(s: State, p: Placement)
    requires p.id !in s.repo.orders && Truthful(s.repo.orders, s.log) && !Accepts(s, p)
    ensures Step(s, Place(p)).Done?
    ensures Truthful(Step(s, Place(p)).value.repo.orders, Step(s, Place(p)).value.log)
  {
    IntakeReports(s, p);
    hide Truthful, LockFunds;
    var reason := LockFunds(s.accounts, p.account, p.id, p.symbol, p.side, p.qty, p.price).rejected.value;
    assert s.log + [OrderPlaced(p)] + [OrderRejected(p.id, reason)]
      == s.log + [OrderPlaced(p), OrderRejected(p.id, reason)];
  }

  lemma {:induction false} StepReported(s: State, c: Command)
    requires Inv(s) && Positive(c) && Sane(c) && (c.Place? ==> c.placement.id !in s.repo.ids)
    requires Truthful(s.repo.orders, s.log)
    ensures Step(s, c).Done? && Truthful(Step(s, c).value.repo.orders, Step(s, c).value.log)
  {
    hide Truthful, Step, Inv, LockFunds;
    if c.Place? {
      NotSeenYet(s, c.placement);
      if Accepts(s, c.placement) { AcceptedReported(s, c.placement); } else { RejectedReported(s, c.placement); }
    } else if c.Cancel? {
      CancelReported(s, c.id);
    } else {
      FundsAnswered(s, c);
      var s' := Step(s, c).value;
      assert s'.log == s.log + s'.log[|s.log|..];
      QuietAppend(s.repo.orders, s.log, s'.log[|s.log|..]);
    }
  }

  lemma NotSeenYet(s: State, p: Placement)
    requires Inv(s) && p.id !in s.repo.ids
    ensures p.id !in s.repo.orders
  {
  }

  lemma {:induction false} CancelReported(s: State, id: OrderId)
    requires Inv(s) && Truthful(s.repo.orders, s.log)
    ensures Step(s, Cancel(id)).Done?
    ensures Truthful(Step(s, Cancel(id)).value.repo.orders, Step(s, Cancel(id)).value.log)
  {
    CancelIs(s, id);
    hide Truthful, Step, Unlock, RemoveFromBook;
    var s' := Step(s, Cancel(id)).value;
    assert s'.log == s.log + s'.log[|s.log|..];
    QuietAppend(s.repo.orders, s.log, s'.log[|s.log|..]);
    if id in s.repo.orders && s.repo.orders[id].IsCancelable() {
      CancelableIsLive(s, id);
      hide Inv;
      OrderPut(s.repo.orders, s'.log, s.repo.orders[id].(status := Canceled));
    }
  }

  /** Every report of a fill in the log of every run is true, and the reports on an order add up to what is filled. */
  lemma {:induction false} FillsAddUp(cmds: seq<Command>)
    requires WellFormed(cmds) && SaneRun(cmds)
    ensures Exec(cmds).Done? && Truthful(Exec(cmds).value.repo.orders, Exec(cmds).value.log)
  {
    if cmds != [] {
      var init, c := cmds[..|cmds| - 1], cmds[|cmds| - 1];
      assert cmds == init + [c];
      hide Truthful, Step, Inv;
      NextCommand(init, c);
      RunsAgree(init);
      FillsAddUp(init);
      StepReported(Exec(init).value, c);
    }
  }

  // ---------- order against market ----------

  /** The orders after a scan of some ids. */
  function ScannedOrders(orders: map<OrderId, Order>, ids: seq<OrderId>, sym: Symbol, q: Quote): map<OrderId, Order> {
    map id | id in orders :: if id in ids && orders[id].symbol == sym then Quoted(orders[id], q) else orders[id]
  }

  lemma {:induction false} ScanReported(orders: map<OrderId, Order>, ids: seq<OrderId>, sym: Symbol, q: Quote,
                                        es: seq<Event>)
    requires forall id :: id in orders ==> MarketOrderOk(id, orders[id])
    requires forall i, j :: 0 <= i < j < |ids| ==> ids[i] != ids[j]
    requires Truthful(orders, es)
    ensures Truthful(ScannedOrders(orders, ids, sym, q), es + MarketFills.ScanLog(orders, ids, sym, q))
    decreases |ids|
  {
    hide Truthful, Meets, FillLog, MarketOrderOk;
    if ids == [] {
      assert ScannedOrders(orders, ids, sym, q) == orders;
      assert es + [] == es;
    } else {
      assert ids == [ids[0]] + ids[1..];
      var id := ids[0];
      if id in orders && orders[id].symbol == sym {
        var o := orders[id];
        var first := if Open(o) && Meets(o, q) then FillLog(o, q) else [];
        FillLogReported(orders, id, q, es);
        var next := orders[id := Quoted(o, q)];
        FilledOk(id, o, q);
        ScanReported(next, ids[1..], sym, q, es + first);
        SameScan(orders, next, ids[1..], sym, q);
        assert ScannedOrders(next, ids[1..], sym, q) == ScannedOrders(orders, ids, sym, q);
        var rest := MarketFills.ScanLog(orders, ids[1..], sym, q);
        assert es + first + rest == es + (first + rest);
      } else {
        ScanReported(orders, ids[1..], sym, q, es);
        assert ScannedOrders(orders, ids[1..], sym, q) == ScannedOrders(orders, ids, sym, q);
        assert [] + MarketFills.ScanLog(orders, ids[1..], sym, q) == MarketFills.ScanLog(orders, ids[1..], sym, q);
      }
    }
  }

  lemma FilledOk(id: OrderId, o: Order, q: Quote)
    requires MarketOrderOk(id, o)
    ensures MarketOrderOk(id, Quoted(o, q))
  {
  }

  /** An order of the symbol, tried. */
  lemma FillLogReported(orders: map<OrderId, Order>, id: OrderId, q: Quote, es: seq<Event>)
    requires id in orders && MarketOrderOk(id, orders[id]) && Truthful(orders, es)
    ensures var o := orders[id];
      Truthful(orders[id := Quoted(o, q)], es + if Open(o) && Meets(o, q) then FillLog(o, q) else [])
  {
    hide Truthful, Meets;
    var o := orders[id];
    if Open(o) && Meets(o, q) {
      var t := TradeExecuted(FillAt(o, q));
      QuietAppend(orders, es, [t]);
      FillReported(orders, es + [t], o, o.qty);
      assert es + [t] + [OrderFilled(id, o.qty, o.qty, Status.Filled)] == es + FillLog(o, q);
    } else {
      assert orders[id := o] == orders && es + [] == es;
    }
  }

  lemma {:induction false} TickReported(m: Venue, sym: Symbol, q: Quote)
    requires MarketInv(m) && Truthful(m.repo.orders, m.log)
    ensures MarketStep(m, Tick(sym, q)).Done?
    ensures Truthful(MarketStep(m, Tick(sym, q)).value.repo.orders, MarketStep(m, Tick(sym, q)).value.log)
  {
    hide Truthful, MarketInv, MarketStep, Quoted, MarketOrderOk, MarketFills.ScanLog;
    TickFills(m, sym, q);
    IdsOnce(m);
    forall id | id in m.repo.orders ensures MarketOrderOk(id, m.repo.orders[id]) { InvParts(m, id); }
    ScanReported(m.repo.orders, m.repo.ids, sym, q, m.log);
    assert MarketStep(m, Tick(sym, q)).value.repo.orders == ScannedOrders(m.repo.orders, m.repo.ids, sym, q);
  }

  lemma {:induction false} MarketPlaceReported(m: Venue, p: Placement)
    requires MarketInv(m) && p.id !in m.repo.orders && Admissible(User(Place(p))) && Truthful(m.repo.orders, m.log)
    ensures MarketStep(m, User(Place(p))).Done?
    ensures Truthful(MarketStep(m, User(Place(p))).value.repo.orders, MarketStep(m, User(Place(p))).value.log)
  {
    hide Truthful, MarketInv, MarketStep, Quoted, Meets, MarketOrderOk, AfterMarketIntake, Admissible;
    PlacementFills(m, p);
    var m', m1 := MarketStep(m, User(Place(p))).value, AfterMarketIntake(m, p);
    IntakeTells(m, p);
    IntakeKeepsInv(m, p);
    InvParts(m1, p.id);
    var o := m1.repo.orders[p.id];
    OrderPut(m.repo.orders, m.log, o);
    QuietAppend(m1.repo.orders, m.log, m1.log[|m.log|..]);
    assert m.log + m1.log[|m.log|..] == m1.log;
    assert m1.log + [] == m1.log;
    if p.symbol in m.quotes {
      FillLogReported(m1.repo.orders, p.id, m.quotes[p.symbol], m1.log);
      assert m1.repo.orders[p.id := Quoted(o, m.quotes[p.symbol])] == m'.repo.orders;
    }
  }

  lemma IntakeTells(m: Venue, p: Placement)
    ensures var m1 := AfterMarketIntake(m, p);
      m.log <= m1.log && forall e :: e in m1.log[|m.log|..] ==> !e.OrderFilled?
  {
    hide LockFunds;
    var m1 := AfterMarketIntake(m, p);
    assert m1.log[|m.log|..] == [OrderPlaced(p)] + TakeIn(m.accounts, m.repo, p).events;
  }

  lemma {:induction false} MarketStepReported(m: Venue, c: MarketCommand)
    requires MarketInv(m) && Admissible(c) && (IsPlace(c) ==> PlacedBy(c) !in m.repo.orders)
    requires Truthful(m.repo.orders, m.log)
    ensures MarketStep(m, c).Done? && Truthful(MarketStep(m, c).value.repo.orders, MarketStep(m, c).value.log)
  {
    hide Truthful, MarketInv, MarketStep, Admissible, GivenBack;
    if c.Fetch? { FetchIs(m, c.symbol, c.quote); }
    else if c.Tick? { TickReported(m, c.symbol, c.quote); }
    else if c.command.Place? { MarketPlaceReported(m, c.command.placement); }
    else if c.command.Cancel? { MarketCancelReported(m, c.command.id); }
    else {
      MarketFundsAnswered(m, c.command);
      var m' := MarketStep(m, c).value;
      assert m'.log == m.log + m'.log[|m.log|..];
      QuietAppend(m.repo.orders, m.log, m'.log[|m.log|..]);
    }
  }

  lemma {:induction false} MarketCancelReported(m: Venue, id: OrderId)
    requires MarketInv(m) && Truthful(m.repo.orders, m.log)
    ensures MarketStep(m, User(Cancel(id))).Done?
    ensures Truthful(MarketStep(m, User(Cancel(id))).value.repo.orders, MarketStep(m, User(Cancel(id))).value.log)
  {
    hide Truthful, MarketInv, MarketStep, GivenBack;
    MarketCancelAnswered(m, id);
    IdsOnce(m);
    var m' := MarketStep(m, User(Cancel(id))).value;
    assert m'.log == m.log + m'.log[|m.log|..];
    QuietAppend(m.repo.orders, m.log, m'.log[|m.log|..]);
    if id in m.repo.orders { OrderPut(m.repo.orders, m'.log, m.repo.orders[id].(status := Canceled)); }
  }

  /** The same of every run of this mode. */
  lemma {:induction false} MarketFillsAddUp(cs: seq<MarketCommand>)
    requires MarketWellFormed(cs)
    ensures MarketExec(cs).Done? && Truthful(MarketExec(cs).value.repo.orders, MarketExec(cs).value.log)
  {
    if cs != [] {
      var init, c := cs[..|cs| - 1], cs[|cs| - 1];
      assert cs == init + [c];
      hide *;
      RunThenStep(init, c);
      MarketFillsAddUp(init);
      MarketStepReported(MarketExec(init).value, c);
    }
  }
}

/** Which orders a step of the order-against-market mode fills, at what price, and how it tells so in the log. */
module MarketFills {
  import opened Domain
  import opened Matching
  import opened Ledger
  import opened Orders
  import opened Exchange
  import opened Answers
  import opened MarketMode
  import opened MarketRuns

  // ---------- by the terms of an order ----------

  predicate Open(o: Order) { o.status == Routed }

  /** An order after a quote of its symbol: filled if it was open and meets it, else as it was. */
  function Quoted(o: Order, q: Quote): Order {
    if Open(o) && Meets(o, q) then o.(status := Status.Filled, filled := o.qty) else o
  }

  /** What a scan writes, order by order as they arrived. */
  function ScanLog(orders: map<OrderId, Order>, ids: seq<OrderId>, sym: Symbol, q: Quote): seq<Event> {
    if ids == [] then []
    else
      (if ids[0] in orders && orders[ids[0]].symbol == sym && Open(orders[ids[0]]) && Meets(orders[ids[0]], q)
       then FillLog(orders[ids[0]], q) else [])
      + ScanLog(orders, ids[1..], sym, q)
  }

  lemma MeetsWhen(o: Order, q: Quote)
    ensures Fillable(o, q) <==> Meets(o, q)
    ensures MarketTrade(o, q) == FillAt(o, q)
    ensures o.MatchPrice() == if o.side == Buy then MostBid(o) else LeastAsked(o)
  {
  }

  /** An open order is tried: it is filled and says so if it meets the quote, and nothing happens otherwise. */
  lemma TriedFills(m: Venue, id: OrderId, q: Quote)
    requires MarketInv(m) && id in m.repo.orders && Open(m.repo.orders[id])
    ensures TryFill(m, id, q).Done? && MarketInv(TryFill(m, id, q).value)
    ensures var o, m' := m.repo.orders[id], TryFill(m, id, q).value;
      && m'.repo == Repo(m.repo.ids, m.repo.orders[id := Quoted(o, q)]) && m'.quotes == m.quotes
      && m'.log == m.log + (if Meets(o, q) then FillLog(o, q) else [])
  {
    hide *;
    var o := m.repo.orders[id];
    MeetsWhen(o, q);
    InvParts(m, id);
    FillTold(m, o, q);
    FillUnfolds(m, o, q);
    FillKeepsInv(m, id, q);
    assert m.log + [] == m.log;
  }

  lemma FillTold(m: Venue, o: Order, q: Quote)
    requires MarketOrderOk(o.id, o) && Open(o) && o.id in m.repo.orders && m.repo.orders[o.id] == o
    ensures o.status == Routed && MarketTrade(o, q) == FillAt(o, q)
    ensures [TradeExecuted(FillAt(o, q)), FillEvent(Closed(o), o.qty)] == FillLog(o, q)
    ensures Quoted(o, q) == if Meets(o, q) then Closed(o) else o
    ensures m.repo.orders[o.id := o] == m.repo.orders
  {
  }

  // ---------- a scan ----------

  lemma {:induction false} ScanTells(m: Venue, ids: seq<OrderId>, sym: Symbol, q: Quote)
    requires MarketInv(m) && forall i, j :: 0 <= i < j < |ids| ==> ids[i] != ids[j]
    requires forall id :: id in ids ==> id in m.repo.orders
    ensures ScanOrders(m, ids, sym, q).Done?
    ensures var m' := ScanOrders(m, ids, sym, q).value;
      && MarketInv(m') && m'.log == m.log + ScanLog(m.repo.orders, ids, sym, q)
      && m'.repo.ids == m.repo.ids && m'.repo.orders == map id | id in m.repo.orders ::
           if id in ids && m.repo.orders[id].symbol == sym then Quoted(m.repo.orders[id], q) else m.repo.orders[id]
    decreases |ids|
  {
    hide *;
    if ids == [] {
      EmptyScan(m, sym, q);
    } else {
      assert ids == [ids[0]] + ids[1..];
      var m1 := FirstTells(m, ids, sym, q);
      ScanTells(m1, ids[1..], sym, q);
      SameScan(m.repo.orders, m1.repo.orders, ids[1..], sym, q);
      var o := m.repo.orders[ids[0]];
      var first := if o.symbol == sym && Open(o) && Meets(o, q) then FillLog(o, q) else [];
      assert m.log + first + ScanLog(m.repo.orders, ids[1..], sym, q)
        == m.log + (first + ScanLog(m.repo.orders, ids[1..], sym, q));
      ScanLogFirst(m.repo.orders, ids, sym, q);
    }
  }

  lemma EmptyScan(m: Venue, sym: Symbol, q: Quote)
    ensures ScanOrders(m, [], sym, q) == Done(m) && ScanLog(m.repo.orders, [], sym, q) == [] && m.log + [] == m.log
    ensures m.repo.orders == map id | id in m.repo.orders :: m.repo.orders[id]
  {
  }

  lemma ScanLogFirst(orders: map<OrderId, Order>, ids: seq<OrderId>, sym: Symbol, q: Quote)
    requires ids != [] && ids[0] in orders
    ensures var o := orders[ids[0]];
      ScanLog(orders, ids, sym, q) ==
        (if o.symbol == sym && Open(o) && Meets(o, q) then FillLog(o, q) else []) + ScanLog(orders, ids[1..], sym, q)
  {
    hide Meets, FillLog;
  }

  lemma FirstTells(m: Venue, ids: seq<OrderId>, sym: Symbol, q: Quote) returns (m1: Venue)
    requires MarketInv(m) && ids != [] && ids[0] in m.repo.orders
    ensures ScanOrders(m, ids, sym, q) == ScanOrders(m1, ids[1..], sym, q) && MarketInv(m1)
    ensures var o := m.repo.orders[ids[0]];
      && m1.repo.ids == m.repo.ids && m1.quotes == m.quotes
      && m1.repo.orders == m.repo.orders[ids[0] := if o.symbol == sym then Quoted(o, q) else o]
      && m1.log == m.log + (if o.symbol == sym && Open(o) && Meets(o, q) then FillLog(o, q) else [])
  {
    var o := m.repo.orders[ids[0]];
    InvParts(m, ids[0]);
    assert Scanned(o, sym) <==> o.symbol == sym && Open(o);
    m1 := m;
    assert m.log + [] == m.log;
    hide MarketInv, TryFill, Meets, FillLog, Scanned;
    if Scanned(o, sym) {
      TriedFills(m, ids[0], q);
      m1 := TryFill(m, ids[0], q).value;
    }
  }

  lemma {:induction false} SameScan(orders: map<OrderId, Order>, orders': map<OrderId, Order>, ids: seq<OrderId>,
                                    sym: Symbol, q: Quote)
    requires orders.Keys == orders'.Keys && forall id :: id in ids && id in orders ==> orders'[id] == orders[id]
    ensures ScanLog(orders', ids, sym, q) == ScanLog(orders, ids, sym, q)
    decreases |ids|
  {
    hide Meets, FillLog;
    if ids != [] { SameScan(orders, orders', ids[1..], sym, q); }
  }

  /** A quote: exactly the open orders of its symbol that meet it are filled, and told of in order of arrival. */
  lemma {:induction false} TickFills(m: Venue, sym: Symbol, q: Quote)
    requires MarketInv(m)
    ensures MarketStep(m, Tick(sym, q)).Done?
    ensures var m' := MarketStep(m, Tick(sym, q)).value;
      && m'.log == m.log + ScanLog(m.repo.orders, m.repo.ids, sym, q)
      && m'.repo.ids == m.repo.ids && m'.quotes == m.quotes[sym := q]
      && m'.repo.orders == map id | id in m.repo.orders ::
           if m.repo.orders[id].symbol == sym then Quoted(m.repo.orders[id], q) else m.repo.orders[id]
  {
    hide *;
    TickIs(m, sym, q);
    IdsOnce(m);
    TickKeepsInv(m, sym, q);
    ScanTells(m.(quotes := m.quotes[sym := q]), m.repo.ids, sym, q);
  }

  lemma TickIs(m: Venue, sym: Symbol, q: Quote)
    requires MarketInv(m)
    ensures var m0 := m.(quotes := m.quotes[sym := q]);
      MarketInv(m0) && MarketStep(m, Tick(sym, q)) == ScanOrders(m0, m.repo.ids, sym, q)
  {
    hide ScanOrders;
  }

  lemma IdsOnce(m: Venue)
    requires MarketInv(m)
    ensures forall i, j :: 0 <= i < j < |m.repo.ids| ==> m.repo.ids[i] != m.repo.ids[j]
    ensures forall id :: id in m.repo.ids <==> id in m.repo.orders
    ensures forall id :: id in m.repo.orders ==> m.repo.orders[id].id == id
  {
  }

  // ---------- a placement ----------

  /** A placement: if it is accepted and meets the last quote of its symbol, it is filled and told of. */
  lemma {:induction false} PlacementFills(m: Venue, p: Placement)
    requires MarketInv(m) && p.id !in m.repo.orders && Admissible(User(Place(p)))
    ensures MarketStep(m, User(Place(p))).Done?
    ensures var m', m1 := MarketStep(m, User(Place(p))).value, AfterMarketIntake(m, p);
      var o := m1.repo.orders[p.id];
      && o == NewOrder(p).(status := o.status) && o.status in {Routed, Rejected} && m'.quotes == m.quotes
      && if p.symbol in m.quotes then
           && m'.repo.orders == m.repo.orders[p.id := Quoted(o, m.quotes[p.symbol])]
           && m'.log == m1.log +
                if Open(o) && Meets(o, m.quotes[p.symbol]) then FillLog(o, m.quotes[p.symbol]) else []
         else m'.repo.orders == m.repo.orders[p.id := o] && m'.log == m1.log
  {
    hide *;
    IntakeKeepsInv(m, p);
    PlaceIs(m, p);
    var m1 := AfterMarketIntake(m, p);
    var o := m1.repo.orders[p.id];
    assert m1.log + [] == m1.log;
    if p.symbol in m.quotes && o.status == Routed {
      TriedFills(m1, p.id, m.quotes[p.symbol]);
    }
  }

  lemma PlaceIs(m: Venue, p: Placement)
    requires Placed(m, Done(AfterMarketIntake(m, p)), p.id)
    ensures var m1 := AfterMarketIntake(m, p);
      var o := m1.repo.orders[p.id];
      && MarketInv(m1) && m1.quotes == m.quotes && m1.repo.orders == m.repo.orders[p.id := o]
      && o == NewOrder(p).(status := o.status) && (Open(o) <==> o.status == Routed)
      && MarketStep(m, User(Place(p))) ==
           (if o.status == Routed && p.symbol in m.quotes then TryFill(m1, p.id, m.quotes[p.symbol]) else Done(m1))
    ensures p.symbol in m.quotes && !Open(AfterMarketIntake(m, p).repo.orders[p.id]) ==>
      var o := AfterMarketIntake(m, p).repo.orders[p.id];
      Quoted(o, m.quotes[p.symbol]) == o
  {
    hide LockFunds, TryFill, MarketInv, Meets;
  }

  // ---------- any step ----------

  /** The step is a quote of the order's symbol, or places the order. */
  predicate Tries(c: MarketCommand, o: Order) {
    (c.Tick? && c.symbol == o.symbol) || (IsPlace(c) && PlacedBy(c) == o.id)
  }

  predicate FilledBy(m: Venue, m': Venue, id: OrderId) {
    && id in m'.repo.orders && m'.repo.orders[id].status == Status.Filled
    && !(id in m.repo.orders && m.repo.orders[id].status == Status.Filled)
  }

  /** The order was open, or has just been accepted. */
  predicate WasOpen(m: Venue, o: Order) {
    if o.id in m.repo.orders then m.repo.orders[o.id].status == Routed else o.status != Rejected
  }

  /** The trade of an order filled whole, at the ask if it buys and at the bid if it sells. */
  predicate TradeOf(t: Trade, o: Order, q: Quote) {
    && t.buyId == t.sellId == o.id && t.symbol == o.symbol && t.qty == o.qty
    && t.price == (if o.side == Buy then q.ask else q.bid) && t.maker == (if o.side == Buy then Sell else Buy)
  }

  /** Orders stay, with their terms, and once closed they stay as they are. */
  predicate OrdersStay(m: Venue, m': Venue) {
    forall id :: id in m.repo.orders ==>
      && id in m'.repo.orders
      && var o, o' := m.repo.orders[id], m'.repo.orders[id];
      o' == if o.status == Routed then o.(status := o'.status, filled := o'.filled) else o
  }

  lemma {:induction false} StepKeepsOrders(m: Venue, c: MarketCommand)
    requires MarketInv(m) && Admissible(c) && (IsPlace(c) ==> PlacedBy(c) !in m.repo.orders)
    ensures MarketStep(m, c).Done? && OrdersStay(m, MarketStep(m, c).value)
  {
    hide MarketStep, Quoted, MarketInv, Admissible, GivenBack, Answered;
    match c
    case Fetch(sym, q) => FetchIs(m, sym, q);
    case Tick(sym, q) =>
      TickFills(m, sym, q);
      forall id | id in m.repo.orders
        ensures var o, o' := m.repo.orders[id], Quoted(m.repo.orders[id], q);
          o' == if o.status == Routed then o.(status := o'.status, filled := o'.filled) else o
      {
        InvParts(m, id);
        QuotedIs(id, m.repo.orders[id], q);
      }
    case User(d) =>
      if d.Place? { PlacementFills(m, d.placement); }
      else if d.Cancel? { MarketCancelAnswered(m, d.id); }
      else { MarketFundsAnswered(m, d); }
  }

  /** Exactly the open orders tried that meet the quote are filled, and each has its trade among these events. */
  ghost predicate FillsExactly(m: Venue, c: MarketCommand, m': Venue, es: seq<Event>) {
    && (forall id :: id in m'.repo.orders ==>
          (FilledBy(m, m', id) <==>
             var o := m'.repo.orders[id];
             WasOpen(m, o) && Tries(c, o) && o.symbol in m'.quotes && Meets(o, m'.quotes[o.symbol])))
    && forall t :: TradeExecuted(t) in es <==> FilledBy(m, m', t.buyId) && TradedAs(m', t)
  }

  predicate TradedAs(m: Venue, t: Trade)
    requires t.buyId in m.repo.orders
  {
    var o := m.repo.orders[t.buyId];
    o.symbol in m.quotes && TradeOf(t, o, m.quotes[o.symbol])
  }

  lemma {:induction false} ScanLogTrades(orders: map<OrderId, Order>, ids: seq<OrderId>, sym: Symbol, q: Quote,
                                         t: Trade)
    requires forall id :: id in orders ==> MarketOrderOk(id, orders[id])
    ensures TradeExecuted(t) in ScanLog(orders, ids, sym, q) <==>
      && t.buyId in ids && t.buyId in orders && orders[t.buyId].symbol == sym
      && Open(orders[t.buyId]) && Meets(orders[t.buyId], q) && TradeOf(t, orders[t.buyId], q)
    decreases |ids|
  {
    hide Meets, MarketOrderOk;
    if ids != [] {
      assert ids == [ids[0]] + ids[1..];
      ScanLogTrades(orders, ids[1..], sym, q, t);
      if ids[0] in orders { LoneTrade(ids[0], orders[ids[0]], q, t); }
    }
  }

  lemma LoneTrade(id: OrderId, o: Order, q: Quote, t: Trade)
    requires MarketOrderOk(id, o)
    ensures Open(o) ==> (TradeExecuted(t) in FillLog(o, q) <==> t.buyId == id && TradeOf(t, o, q))
  {
  }

  /** What a quote does to one order of its symbol. */
  lemma QuotedIs(id: OrderId, o: Order, q: Quote)
    requires MarketOrderOk(id, o)
    ensures var o' := Quoted(o, q);
      && o'.id == o.id == id && o'.symbol == o.symbol && o' == o.(status := o'.status, filled := o'.filled)
      && (o.status != Routed ==> o' == o) && (Meets(o', q) <==> Meets(o, q))
      && o'.status == (if o.status == Routed && Meets(o, q) then Status.Filled else o.status)
      && forall t :: TradeOf(t, o', q) <==> TradeOf(t, o, q)
  {
    hide TradeOf;
    forall t ensures TradeOf(t, Quoted(o, q), q) <==> TradeOf(t, o, q) { SameTrade(t, o, Quoted(o, q), q); }
  }

  lemma SameTrade(t: Trade, o: Order, o': Order, q: Quote)
    requires o' == o.(status := o'.status, filled := o'.filled)
    ensures TradeOf(t, o', q) <==> TradeOf(t, o, q)
  {
  }

  lemma {:induction false} TickFillsExactly(m: Venue, sym: Symbol, q: Quote)
    requires MarketInv(m)
    ensures MarketStep(m, Tick(sym, q)).Done?
    ensures var m' := MarketStep(m, Tick(sym, q)).value;
      FillsExactly(m, Tick(sym, q), m', ScanLog(m.repo.orders, m.repo.ids, sym, q))
  {
    hide MarketStep, ScanLog, Quoted, Meets, TradeOf, MarketInv, MarketOrderOk;
    TickFills(m, sym, q);
    IdsOnce(m);
    var m', es := MarketStep(m, Tick(sym, q)).value, ScanLog(m.repo.orders, m.repo.ids, sym, q);
    forall id | id in m.repo.orders
      ensures MarketOrderOk(id, m.repo.orders[id])
    {
      InvParts(m, id);
      QuotedIs(id, m.repo.orders[id], q);
    }
    forall t ensures TradeExecuted(t) in es <==> FilledBy(m, m', t.buyId) && TradedAs(m', t) {
      ScanLogTrades(m.repo.orders, m.repo.ids, sym, q, t);
      if t.buyId in m.repo.orders { QuotedIs(t.buyId, m.repo.orders[t.buyId], q); }
    }
    forall id | id in m'.repo.orders
      ensures var o := m'.repo.orders[id];
        FilledBy(m, m', id) <==>
          WasOpen(m, o) && Tries(Tick(sym, q), o) && o.symbol in m'.quotes && Meets(o, m'.quotes[o.symbol])
    {
      QuotedIs(id, m.repo.orders[id], q);
    }
  }

  lemma {:induction false} PlaceFillsExactly(m: Venue, p: Placement)
    requires MarketInv(m) && p.id !in m.repo.orders && Admissible(User(Place(p)))
    ensures MarketStep(m, User(Place(p))).Done?
    ensures var m' := MarketStep(m, User(Place(p))).value;
      m.log <= m'.log && FillsExactly(m, User(Place(p)), m', m'.log[|m.log|..])
  {
    hide *;
    PlacementFills(m, p);
    IntakeTradesNothing(m, p);
    IntakeKeepsInv(m, p);
    PlaceIs(m, p);
    var m', m1 := MarketStep(m, User(Place(p))).value, AfterMarketIntake(m, p);
    var o := m1.repo.orders[p.id];
    InvParts(m1, p.id);
    IdsOnce(m);
    NewTerms(p, o);
    var intake, es := m1.log[|m.log|..], m'.log[|m.log|..];
    if p.symbol in m.quotes {
      assert es == intake + if Open(o) && Meets(o, m.quotes[p.symbol]) then FillLog(o, m.quotes[p.symbol]) else [];
      NewOrderFills(m, m', p, o, intake, es);
    } else {
      assert es == intake;
      NewOrderWaits(m, m', p, o, es);
    }
  }

  lemma NewOrderFills(m: Venue, m': Venue, p: Placement, o: Order, intake: seq<Event>, es: seq<Event>)
    requires MarketOrderOk(p.id, o) && p.id !in m.repo.orders && o.symbol == p.symbol && o.status in {Routed, Rejected}
    requires p.symbol in m.quotes && m'.quotes == m.quotes
    requires forall id :: id in m.repo.orders ==> m.repo.orders[id].id == id
    requires var q := m.quotes[p.symbol];
      && m'.repo.orders == m.repo.orders[p.id := Quoted(o, q)]
      && es == intake + if Open(o) && Meets(o, q) then FillLog(o, q) else []
    requires forall e :: e in intake ==> !e.TradeExecuted?
    ensures FillsExactly(m, User(Place(p)), m', es)
  {
    hide Quoted, Meets, TradeOf, FillLog, MarketOrderOk;
    QuotedIs(p.id, o, m.quotes[p.symbol]);
    NewOrderTrades(m, m', o, m.quotes[p.symbol], intake, es);
  }

  lemma NewOrderWaits(m: Venue, m': Venue, p: Placement, o: Order, es: seq<Event>)
    requires p.id !in m.repo.orders && o.symbol == p.symbol && o.id == p.id && o.status in {Routed, Rejected}
    requires p.symbol !in m.quotes && m'.quotes == m.quotes && m'.repo.orders == m.repo.orders[p.id := o]
    requires forall id :: id in m.repo.orders ==> m.repo.orders[id].id == id
    requires forall e :: e in es ==> !e.TradeExecuted?
    ensures FillsExactly(m, User(Place(p)), m', es)
  {
    hide Meets, TradeOf;
  }

  lemma NewOrderTrades(m: Venue, m': Venue, o: Order, q: Quote, intake: seq<Event>, es: seq<Event>)
    requires MarketOrderOk(o.id, o) && o.id !in m.repo.orders && m'.repo.orders == m.repo.orders[o.id := Quoted(o, q)]
    requires o.symbol in m'.quotes && m'.quotes[o.symbol] == q && o.status in {Routed, Rejected}
    requires es == (intake + if Open(o) && Meets(o, q) then FillLog(o, q) else [])
    requires forall e :: e in intake ==> !e.TradeExecuted?
    ensures forall t :: TradeExecuted(t) in es <==> FilledBy(m, m', t.buyId) && TradedAs(m', t)
  {
    hide Quoted, Meets, TradeOf, FillLog, MarketOrderOk;
    QuotedIs(o.id, o, q);
    forall t ensures TradeExecuted(t) in es <==> FilledBy(m, m', t.buyId) && TradedAs(m', t) {
      LoneTrade(o.id, o, q, t);
    }
  }

  lemma NewTerms(p: Placement, o: Order)
    requires o == NewOrder(p).(status := o.status)
    ensures o.symbol == p.symbol && o.id == p.id
  {
  }

  lemma IntakeTradesNothing(m: Venue, p: Placement)
    ensures var m1 := AfterMarketIntake(m, p);
      m.log <= m1.log && forall e :: e in m1.log[|m.log|..] ==> !e.TradeExecuted?
  {
    hide LockFunds;
    var m1 := AfterMarketIntake(m, p);
    assert m1.log[|m.log|..] == [OrderPlaced(p)] + TakeIn(m.accounts, m.repo, p).events;
  }

  lemma {:induction false} OthersFillNothing(m: Venue, c: MarketCommand)
    requires MarketInv(m) && Admissible(c) && !c.Tick? && !IsPlace(c)
    ensures MarketStep(m, c).Done?
    ensures var m' := MarketStep(m, c).value; m.log <= m'.log && FillsExactly(m, c, m', m'.log[|m.log|..])
  {
    hide Meets, TradeOf, MarketInv, MarketStep, MarketOrderOk, Admissible, GivenBack;
    IdsOnce(m);
    if c.Fetch? { FetchIs(m, c.symbol, c.quote); }
    else if c.command.Cancel? { MarketCancelAnswered(m, c.command.id); }
    else { MarketFundsAnswered(m, c.command); }
  }

  lemma FetchIs(m: Venue, sym: Symbol, q: Quote)
    ensures MarketStep(m, Fetch(sym, q)) == Done(m.(quotes := m.quotes[sym := q]))
  {
  }

  /**
   * Any step of any run: orders keep their terms, and closed ones stay as they are. Exactly the open orders of the
   * symbol quoted, or the order placed, that meet the last quote are filled; and exactly their trades are logged, each
   * with the order on both sides, at the ask or the bid, for the whole order.
   */
  lemma {:induction false} MarketStepFills(cs: seq<MarketCommand>, c: MarketCommand)
    requires MarketWellFormed(cs + [c])
    ensures MarketExec(cs).Done? && MarketExec(cs + [c]).Done?
    ensures var m, m' := MarketExec(cs).value, MarketExec(cs + [c]).value;
      m.log <= m'.log && OrdersStay(m, m') && FillsExactly(m, c, m', m'.log[|m.log|..])
  {
    hide *;
    RunThenStep(cs, c);
    StepFills(MarketExec(cs).value, c);
    StepKeepsOrders(MarketExec(cs).value, c);
  }

  lemma RunThenStep(cs: seq<MarketCommand>, c: MarketCommand)
    requires MarketWellFormed(cs + [c])
    ensures MarketExec(cs).Done? && MarketInv(MarketExec(cs).value) && Admissible(c)
    ensures IsPlace(c) ==> PlacedBy(c) !in MarketExec(cs).value.repo.orders
    ensures MarketExec(cs + [c]) == MarketStep(MarketExec(cs).value, c)
    ensures MarketWellFormed(cs)
  {
    hide MarketExec, MarketStep, MarketInv;
    var all := cs + [c];
    assert all[..|cs|] == cs && forall i :: 0 <= i < |cs| ==> all[i] == cs[i];
    assert all[|cs|] == c;
    MarketRunsAgree(cs);
    FreshNext(all, MarketExec(cs).value.repo.orders.Keys);
    MarketLast(cs, c);
  }

  lemma {:induction false} StepFills(m: Venue, c: MarketCommand)
    requires MarketInv(m) && Admissible(c) && (IsPlace(c) ==> PlacedBy(c) !in m.repo.orders)
    ensures MarketStep(m, c).Done?
    ensures var m' := MarketStep(m, c).value; m.log <= m'.log && FillsExactly(m, c, m', m'.log[|m.log|..])
  {
    hide MarketInv, MarketStep, Admissible, FillsExactly;
    match c
    case Tick(sym, q) =>
      TickFillsExactly(m, sym, q);
      TickFills(m, sym, q);
      assert MarketStep(m, c).value.log[|m.log|..] == ScanLog(m.repo.orders, m.repo.ids, sym, q);
    case User(Place(p)) => PlaceFillsExactly(m, p);
    case _ => OthersFillNothing(m, c);
  }

  // ---------- every trade ----------

  /** The trade filled the order whole, at a price that the order takes. */
  predicate Fair(t: Trade, o: Order) {
    && t.buyId == t.sellId == o.id && t.symbol == o.symbol && t.qty == o.qty == o.filled && o.status == Status.Filled
    && 0.0 < t.price && if o.side == Buy then t.price <= MostBid(o) else LeastAsked(o) <= t.price
  }

  ghost predicate AllFair(m: Venue) {
    forall t :: TradeExecuted(t) in m.log ==> t.buyId in m.repo.orders && Fair(t, m.repo.orders[t.buyId])
  }

  /** Every trade of every run fills one order whole, at no more than it bids or no less than it asks. */
  lemma {:induction false} EveryMarketTradeFair(cs: seq<MarketCommand>)
    requires MarketWellFormed(cs)
    ensures MarketExec(cs).Done? && AllFair(MarketExec(cs).value)
  {
    if cs != [] {
      var init, c := cs[..|cs| - 1], cs[|cs| - 1];
      assert cs == init + [c];
      hide *;
      RunThenStep(init, c);
      EveryMarketTradeFair(init);
      StepFills(MarketExec(init).value, c);
      StepKeepsOrders(MarketExec(init).value, c);
      MarketRunsAgree(cs);
      StaysFair(MarketExec(init).value, c, MarketExec(cs).value);
    }
  }

  lemma StaysFair(m: Venue, c: MarketCommand, m': Venue)
    requires AllFair(m) && m.log <= m'.log && OrdersStay(m, m') && FillsExactly(m, c, m', m'.log[|m.log|..])
    requires MarketInv(m')
    ensures AllFair(m')
  {
  }
}

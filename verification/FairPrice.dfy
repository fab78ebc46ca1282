/** The price of every trade of every run, and who sets it. */
module FairPrice {
  import opened Domain
  import opened PriceTime
  import opened Matching
  import opened Orders
  import opened Exchange
  import opened Agreement
  import opened Runs
  import opened LogShape
  import opened ReplayRuns
  import opened ExactLocks

  /** Same order, whatever is left of it. */
  predicate SameKey(x: BookEntry, y: BookEntry) { x == y.(qty := x.qty) }

  predicate Offered(es: seq<BookEntry>, x: BookEntry) { exists y :: y in es && SameKey(x, y) }

  lemma TakeTopOffers(es: seq<BookEntry>, q: real, x: BookEntry)
    requires es != [] && Offered(TakeTop(es, q), x)
    ensures Offered(es, x)
  {
    var y :| y in TakeTop(es, q) && SameKey(x, y);
    assert es == [es[0]] + es[1..];
    assert y in es || SameKey(x, es[0]);
  }

  /**
   * Each trade of the loop is between a bid and an ask of the book, crossing, at the price of the earlier of the two.
   */
  lemma {:induction false} TradesBetweenEntries(sym: Symbol, b: Book, t: Trade) returns (x: BookEntry, y: BookEntry)
    requires t in Match(sym, b).trades
    ensures Offered(b.bids, x) && Offered(b.asks, y)
    ensures x.price >= y.price && t == TradeBetween(sym, x, y)
    decreases |b.bids| + |b.asks|
  {
    var b1 := CrossOnce(b);
    assert b.bids[0] in b.bids && b.asks[0] in b.asks;
    if t == TradeBetween(sym, b.bids[0], b.asks[0]) {
      x, y := b.bids[0], b.asks[0];
      assert SameKey(x, x) && SameKey(y, y);
    } else {
      assert t in Match(sym, b1).trades;
      x, y := TradesBetweenEntries(sym, b1, t);
      var q := Min(b.bids[0].qty, b.asks[0].qty);
      TakeTopOffers(b.bids, q, x);
      TakeTopOffers(b.asks, q, y);
    }
  }

  /**
   * A fair trade: between a BUY and a SELL of its symbol, no dearer than the buyer's price and no cheaper than
   * the seller's, at the price of the order created first (the buyer's if both were created at once), which is
   * the one reported as its maker.
   */
  predicate Fair(t: Trade, orders: map<OrderId, Order>) {
    && t.buyId in orders && t.sellId in orders && t.qty > 0.0
    && var b, s := orders[t.buyId], orders[t.sellId];
    && b.side == Buy && s.side == Sell && b.symbol == s.symbol == t.symbol
    && s.MatchPrice() <= t.price <= b.MatchPrice()
    && t.maker == (if b.createdAt <= s.createdAt then Buy else Sell)
    && t.price == if t.maker == Buy then b.MatchPrice() else s.MatchPrice()
  }

  ghost predicate AllFair(s: State) { forall e :: e in s.log && e.TradeExecuted? ==> Fair(e.trade, s.repo.orders) }

  lemma StaysFair(t: Trade, r: Repo, r': Repo)
    requires Fair(t, r.orders) && KeepsTerms(r, r')
    ensures Fair(t, r'.orders)
  {
    assert SameTerms(r.orders[t.buyId], r'.orders[t.buyId]) && SameTerms(r.orders[t.sellId], r'.orders[t.sellId]);
  }

  lemma BookTradesFair(repo: Repo, books: map<Symbol, Book>, sym: Symbol, t: Trade)
    requires RepoOk(repo) && BooksAgree(repo, books) && t in Match(sym, BookOf(books, sym)).trades
    ensures Fair(t, repo.orders)
  {
    var b := BookOf(books, sym);
    BookOkFrom(repo, books, sym);
    MatchKeepsBook(sym, b);
    var x, y := TradesBetweenEntries(sym, b, t);
    assert SideMatches(repo, books, sym, Buy) && SideMatches(repo, books, sym, Sell);
    var x0 :| x0 in b.bids && SameKey(x, x0);
    var y0 :| y0 in b.asks && SameKey(y, y0);
    assert x0 == Entry(repo.orders[x0.orderId]) && y0 == Entry(repo.orders[y0.orderId]);
  }

  lemma {:induction false} FairStep(s: State, c: Command)
    requires Inv(s) && AllFair(s) && Positive(c) && Sane(c) && (c.Place? ==> c.placement.id !in s.repo.ids)
    ensures Step(s, c).Done? && AllFair(Step(s, c).value)
  {
    StepKeepsInv(s, c);
    StepLog(s, c);
    IdsMatch(s);
    StepKeepsTerms(s, c);
    var s' := Step(s, c).value;
    forall e | e in s'.log && e.TradeExecuted? ensures Fair(e.trade, s'.repo.orders) {
      if e in s.log { StaysFair(e.trade, s.repo, s'.repo); }
      else { NewTradeFair(s, c, e); }
    }
  }

  lemma {:induction false} AcceptedTrade(s: State, p: Placement, e: Event)
    requires Accepts(s, p) && e in NewEvents(s, Place(p)) && e.TradeExecuted?
    ensures e.trade in TradesOf(s, p)
  {
    hide NewEvents, SubmitOrder, DeskFor, TradesOf, TradeEvents, FillEvents, Accepts;
    var d := DeskFor(s, p);
    var sub := SubmitOrder(s.books, s.seen, p.symbol, p.side, Entry(NewOrder(p)));
    OnlyRemainders(s, p);
    AcceptedEvents(s, p);
    TradeEventsTrades(d.repo, sub.trades);
    FillsAreInformational(d, sub.trades);
  }

  lemma {:induction false} NewTradeFair(s: State, c: Command, e: Event)
    requires Inv(s) && Positive(c) && Sane(c) && (c.Place? ==> c.placement.id !in s.repo.orders)
    requires Step(s, c).Done? && e in NewEvents(s, c) && e.TradeExecuted?
    ensures Fair(e.trade, Step(s, c).value.repo.orders)
  {
    var p := c.placement;
    var o := NewOrder(p).(status := Routed);
    var d := DeskFor(s, p);
    var ts := TradesOf(s, p);
    TradesAre(s, p);
    AcceptedTrade(s, p, e);
    AcceptedAgrees(s, p);
    AcceptedSettles(s, p);
    hide Inv, NewEvents, Step, SubmitOrder, Fair;
    BookTradesFair(s.repo.Add(o), BooksWith(s.books, o), p.symbol, e.trade);
    TradesKeepTerms(d, ts);
    StaysFair(e.trade, d.repo, Step(s, c).value.repo);
  }

  /** Every trade in the log of any sane run is fair, with no assumption on the clock. */
  lemma {:induction false} EveryTradeFair(cmds: seq<Command>)
    requires WellFormed(cmds) && SaneRun(cmds)
    ensures Exec(cmds).Done? && AllFair(Exec(cmds).value)
  {
    RunsAgree(cmds);
    if cmds != [] {
      var init, c := cmds[..|cmds| - 1], cmds[|cmds| - 1];
      assert cmds == init + [c];
      NextCommand(init, c);
      RunsAgree(init);
      EveryTradeFair(init);
      FairStep(Exec(init).value, c);
    }
  }

  // ---------- with a clock that moves ----------

  /** Every placement is stamped strictly later than those before it. */
  predicate Clocked(cmds: seq<Command>) {
    forall i, j :: 0 <= i < j < |cmds| && cmds[i].Place? && cmds[j].Place? ==>
      cmds[i].placement.at < cmds[j].placement.at
  }

  /** The clock may stand still, but placements are never stamped earlier than those before them. */
  predicate NotBack(cmds: seq<Command>) {
    forall i, j :: 0 <= i < j < |cmds| && cmds[i].Place? && cmds[j].Place? ==>
      cmds[i].placement.at <= cmds[j].placement.at
  }

  /** Creation times follow arrival. */
  ghost predicate InOrder(repo: Repo) {
    forall x, y :: x in repo.orders && y in repo.orders && Rank(repo.ids, x) < Rank(repo.ids, y) ==>
      repo.orders[x].createdAt <= repo.orders[y].createdAt
  }

  /** Every order was created by one of the placements, at its time. */
  predicate StampedBy(cmds: seq<Command>, o: Order) {
    exists c :: c in cmds && c.Place? && c.placement.id == o.id && c.placement.at == o.createdAt
  }

  /** On a moving clock no two orders have the same creation time. */
  lemma StampsDiffer(cmds: seq<Command>, x: Order, y: Order)
    requires Clocked(cmds) && StampedBy(cmds, x) && StampedBy(cmds, y) && x.id != y.id
    ensures x.createdAt != y.createdAt
  {
    var c :| c in cmds && c.Place? && c.placement.id == x.id && c.placement.at == x.createdAt;
    var d :| d in cmds && d.Place? && d.placement.id == y.id && d.placement.at == y.createdAt;
    var i :| 0 <= i < |cmds| && cmds[i] == c;
    var j :| 0 <= j < |cmds| && cmds[j] == d;
  }

  lemma {:induction false} StampsInOrder(cmds: seq<Command>)
    requires WellFormed(cmds) && SaneRun(cmds) && NotBack(cmds)
    ensures Exec(cmds).Done? && InOrder(Exec(cmds).value.repo)
    ensures forall id :: id in Exec(cmds).value.repo.orders ==> StampedBy(cmds, Exec(cmds).value.repo.orders[id])
  {
    RunsAgree(cmds);
    if cmds != [] {
      var init, c := cmds[..|cmds| - 1], cmds[|cmds| - 1];
      assert cmds == init + [c];
      NextCommand(init, c);
      RunsAgree(init);
      assert NotBack(init) by { assert forall i :: 0 <= i < |init| ==> init[i] == cmds[i]; }
      StampsInOrder(init);
      var s := Exec(init).value;
      IdsMatch(s);
      StepKeepsTerms(s, c);
      StampsStep(init, s.repo, c, Exec(cmds).value.repo);
    }
  }

  lemma {:induction false} StampsStep(init: seq<Command>, r: Repo, c: Command, r': Repo)
    requires InOrder(r) && KeepsTerms(r, r') && NotBack(init + [c])
    requires forall id :: id in r.ids <==> id in r.orders
    requires forall id :: id in r.orders ==> StampedBy(init, r.orders[id])
    requires r'.ids == IdsAfter(r.ids, c) && (c.Place? ==> c.placement.id !in r.ids)
    requires forall id :: id in r'.orders && id !in r.orders ==>
      c.Place? && c.placement.id == id && SameTerms(NewOrder(c.placement), r'.orders[id])
    ensures InOrder(r') && forall id :: id in r'.orders ==> StampedBy(init + [c], r'.orders[id])
  {
    var cmds := init + [c];
    assert cmds[|init|] == c;
    forall id | id in r'.orders ensures StampedBy(cmds, r'.orders[id]) {
      if id in r.orders {
        assert SameTerms(r.orders[id], r'.orders[id]) && StampedBy(init, r.orders[id]);
        var d :| d in init && d.Place? && d.placement.id == r.orders[id].id && d.placement.at == r.orders[id].createdAt;
        assert d in cmds;
      } else { assert c in cmds; }
    }
    forall x, y | x in r'.orders && y in r'.orders && Rank(r'.ids, x) < Rank(r'.ids, y)
      ensures r'.orders[x].createdAt <= r'.orders[y].createdAt
    {
      if c.Place? {
        RankAppend(r.ids, c.placement.id, x);
        RankAppend(r.ids, c.placement.id, y);
      }
      if x in r.orders {
        RankBound(r.ids, x);
        assert SameTerms(r.orders[x], r'.orders[x]);
        if y in r.orders {
          assert SameTerms(r.orders[y], r'.orders[y]);
        } else {
          assert StampedBy(init, r.orders[x]);
          var d :| d in init && d.Place? && d.placement.at == r.orders[x].createdAt;
          var i :| 0 <= i < |init| && init[i] == d;
          assert cmds[i] == d;
        }
      } else if y in r.orders {
        RankBound(r.ids, y);
      }
    }
  }

  /**
   * Maker price, exactly: on a clock that does not go back, every trade executes at the price of whichever of its two
   * orders arrived first, that is the one that was resting; but at the buyer's if both have the same stamp.
   */
  lemma {:induction false} MakerPriceExactly(cmds: seq<Command>, e: Event)
    requires WellFormed(cmds) && SaneRun(cmds) && NotBack(cmds)
    requires Exec(cmds).Done? && e in Exec(cmds).value.log && e.TradeExecuted?
    ensures var r := Exec(cmds).value.repo;
      && e.trade.buyId in r.orders && e.trade.sellId in r.orders
      && Rank(r.ids, e.trade.buyId) != Rank(r.ids, e.trade.sellId)
      && var b, s := r.orders[e.trade.buyId], r.orders[e.trade.sellId];
      e.trade.price == if Rank(r.ids, b.id) < Rank(r.ids, s.id) || b.createdAt == s.createdAt then b.MatchPrice()
                       else s.MatchPrice()
  {
    EveryTradeFair(cmds);
    StampsInOrder(cmds);
    RunsAgree(cmds);
    var s := Exec(cmds).value;
    IdsMatch(s);
    var t := e.trade;
    assert Fair(t, s.repo.orders);
    assert OrderOk(t.buyId, s.repo.orders[t.buyId]) && OrderOk(t.sellId, s.repo.orders[t.sellId]);
    hide Exec, Inv;
    RankBound(s.repo.ids, t.buyId);
    RankBound(s.repo.ids, t.sellId);
  }

  /** Maker price: on a clock that moves it is always the price of the order that was resting. */
  lemma {:induction false} MakerPrice(cmds: seq<Command>, e: Event)
    requires WellFormed(cmds) && SaneRun(cmds) && Clocked(cmds)
    requires Exec(cmds).Done? && e in Exec(cmds).value.log && e.TradeExecuted?
    ensures var r := Exec(cmds).value.repo;
      && e.trade.buyId in r.orders && e.trade.sellId in r.orders
      && Rank(r.ids, e.trade.buyId) != Rank(r.ids, e.trade.sellId)
      && e.trade.price == if Rank(r.ids, e.trade.buyId) < Rank(r.ids, e.trade.sellId)
                          then r.orders[e.trade.buyId].MatchPrice() else r.orders[e.trade.sellId].MatchPrice()
  {
    assert NotBack(cmds);
    MakerPriceExactly(cmds, e);
    StampsInOrder(cmds);
    RunsAgree(cmds);
    var s := Exec(cmds).value;
    IdsMatch(s);
    assert OrderOk(e.trade.buyId, s.repo.orders[e.trade.buyId]) &&
      OrderOk(e.trade.sellId, s.repo.orders[e.trade.sellId]);
    hide Exec, Inv;
    StampsDiffer(cmds, s.repo.orders[e.trade.buyId], s.repo.orders[e.trade.sellId]);
  }

  /**
   * First come, first served: on a clock that does not go back, orders resting at one price are queued in order of
   * arrival.
   */
  lemma FirstComeFirstServed(cmds: seq<Command>, sym: Symbol, side: Side, i: nat, j: nat)
    requires WellFormed(cmds) && SaneRun(cmds) && NotBack(cmds) && Exec(cmds).Done?
    requires var es := BookOf(Exec(cmds).value.books, sym).On(side); i < j < |es| && es[i].price == es[j].price
    ensures var s := Exec(cmds).value;
      var es := BookOf(s.books, sym).On(side);
      Rank(s.repo.ids, es[i].orderId) < Rank(s.repo.ids, es[j].orderId)
  {
    StampsInOrder(cmds);
    RunsAgree(cmds);
    var s := Exec(cmds).value;
    IdsMatch(s);
    assert SideMatches(s.repo, s.books, sym, side);
    hide Inv, RepoOk;
    QueuedByArrival(s.repo, sym, side, BookOf(s.books, sym).On(side), i, j);
  }

  lemma QueuedByArrival(r: Repo, sym: Symbol, side: Side, es: seq<BookEntry>, i: nat, j: nat)
    requires SideAgrees(r.ids, r.orders, sym, side, es) && InOrder(r)
    requires forall id :: id in r.orders ==> id in r.ids && r.orders[id].id == id
    requires i < j < |es| && es[i].price == es[j].price
    ensures Rank(r.ids, es[i].orderId) < Rank(r.ids, es[j].orderId)
  {
    assert es[i] in es && es[j] in es && Ahead(r.ids, es[i], es[j]);
    var x, y := es[i].orderId, es[j].orderId;
    assert es[i] == Entry(r.orders[x]) && es[j] == Entry(r.orders[y]);
    RankBound(r.ids, x);
    RankBound(r.ids, y);
  }
}

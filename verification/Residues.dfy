/** What a BUY order's lock holds, told at its placement, and exactly when a filled order strands nothing. */
module Residues {
  import opened Domain
  import opened PriceTime
  import opened Matching
  import opened Ledger
  import opened Orders
  import opened Exchange
  import opened Agreement
  import opened Runs
  import opened LogShape
  import opened ReplayRuns
  import opened ExactLocks
  import opened FairPrice
  import opened BookRebuild

  // ---------- savings, from the log ----------

  /** What an order keeps of its own price in a trade. */
  function SavedBy(t: Trade, id: OrderId, price: real): real {
    if t.buyId == id then Value(price - t.price, t.qty) else 0.0
  }

  function Saved(es: seq<Event>, id: OrderId, price: real): real {
    if es == [] then 0.0
    else (if es[0].TradeExecuted? then SavedBy(es[0].trade, id, price) else 0.0) + Saved(es[1..], id, price)
  }

  /** The quantity an order bought, and the quantity it sold. */
  function Bought(es: seq<Event>, id: OrderId): real {
    if es == [] then 0.0
    else (if es[0].TradeExecuted? && es[0].trade.buyId == id then es[0].trade.qty else 0.0) + Bought(es[1..], id)
  }

  function Sold(es: seq<Event>, id: OrderId): real {
    if es == [] then 0.0
    else (if es[0].TradeExecuted? && es[0].trade.sellId == id then es[0].trade.qty else 0.0) + Sold(es[1..], id)
  }

  lemma ValueSplits(p: real, q: real, a: real, b: real)
    ensures Value(p - q, a) == Value(p, a) - Value(q, a) && Value(p, a + b) == Value(p, a) + Value(p, b)
    ensures Value(p, 0.0) == 0.0 && Value(0.0, a) == 0.0
  {
  }

  /** Saved is the value at the order's price less what was paid. */
  lemma {:induction false} SavedIs(es: seq<Event>, id: OrderId, price: real)
    ensures Saved(es, id, price) == Value(price, Bought(es, id)) - Spent(es, id)
  {
    hide Value;
    if es == [] {
      ValueSplits(price, 0.0, 0.0, 0.0);
    } else {
      SavedIs(es[1..], id, price);
      if es[0].TradeExecuted? { ValueSplits(price, es[0].trade.price, es[0].trade.qty, Bought(es[1..], id)); }
    }
  }

  lemma {:induction false} SavedAppend(xs: seq<Event>, ys: seq<Event>, id: OrderId, price: real)
    ensures Saved(xs + ys, id, price) == Saved(xs, id, price) + Saved(ys, id, price)
  {
    hide Value;
    if xs == [] { assert xs + ys == ys; }
    else {
      assert (xs + ys)[1..] == xs[1..] + ys;
      SavedAppend(xs[1..], ys, id, price);
    }
  }

  /** Trades at the order's own price save nothing. */
  lemma {:induction false} NothingSaved(es: seq<Event>, id: OrderId, price: real)
    requires forall e :: e in es && e.TradeExecuted? && e.trade.buyId == id ==> e.trade.price == price
    ensures Saved(es, id, price) == 0.0
  {
    hide Value;
    if es != [] {
      assert es[0] in es;
      NothingSaved(es[1..], id, price);
      if es[0].TradeExecuted? { ValueSplits(0.0, 0.0, es[0].trade.qty, 0.0); }
    }
  }

  // ---------- savings of one placement ----------

  /** The price an incoming BUY order pays a resting one: the older order's. */
  function PricePaid(p: Placement, f: Fill): real {
    if p.at <= f.resting.sortTime then EffectivePrice(p.side, p.otype, p.price) else f.resting.price
  }

  function SavedInFills(p: Placement, fs: seq<Fill>): real {
    if fs == [] then 0.0
    else Value(EffectivePrice(p.side, p.otype, p.price) - PricePaid(p, fs[0]), fs[0].qty) + SavedInFills(p, fs[1..])
  }

  /** What the order would be filled with on arrival: the sweep of the resting SELL orders. */
  function FillsOnArrival(s: State, p: Placement): seq<Fill> {
    SweepQueue(Buy, EffectivePrice(p.side, p.otype, p.price), p.qty, BookOf(s.books, p.symbol).asks).fills
  }

  lemma {:induction false} SavedInTrades(repo: Repo, p: Placement, fs: seq<Fill>)
    requires p.side == Buy
    requires var ts := TradesFor(p.symbol, Buy, Entry(NewOrder(p)), fs);
      forall t :: t in ts ==> t.buyId in repo.orders && t.sellId in repo.orders
    ensures var ts, price := TradesFor(p.symbol, Buy, Entry(NewOrder(p)), fs), EffectivePrice(p.side, p.otype, p.price);
      Saved(TradeEvents(repo, ts), p.id, price) == SavedInFills(p, fs)
  {
    hide *;
    var ts := TradesFor(p.symbol, Buy, Entry(NewOrder(p)), fs);
    forall i | 0 <= i < |ts| ensures Keeps(p, ts[i], fs[i]) { FillIs(p, fs[i]); }
    SavedPointwise(repo, p, ts, fs);
  }

  lemma {:induction false} SavedPointwise(repo: Repo, p: Placement, ts: seq<Trade>, fs: seq<Fill>)
    requires |ts| == |fs| && forall i :: 0 <= i < |ts| ==> Keeps(p, ts[i], fs[i])
    requires forall t :: t in ts ==> t.buyId in repo.orders && t.sellId in repo.orders
    ensures Saved(TradeEvents(repo, ts), p.id, EffectivePrice(p.side, p.otype, p.price)) == SavedInFills(p, fs)
  {
    hide Value, SavedBy, PricePaid, EffectivePrice;
    if ts != [] {
      assert Keeps(p, ts[0], fs[0]);
      assert forall t :: t in ts[1..] ==> t in ts;
      hide Saved, TradeEvents;
      SavedPointwise(repo, p, ts[1..], fs[1..]);
      SavedInFirst(repo, ts, p.id, EffectivePrice(p.side, p.otype, p.price));
    }
  }

  lemma SavedInFirst(repo: Repo, ts: seq<Trade>, id: OrderId, price: real)
    requires ts != [] && forall t :: t in ts ==> t.buyId in repo.orders && t.sellId in repo.orders
    ensures Saved(TradeEvents(repo, ts), id, price)
      == SavedBy(ts[0], id, price) + Saved(TradeEvents(repo, ts[1..]), id, price)
  {
    hide SavedBy, Saved;
    assert ts[0] in ts;
    var first := [TradeExecuted(ts[0]), SettlementOf(repo, ts[0])];
    SavedAppend(first, TradeEvents(repo, ts[1..]), id, price);
    SavedInPair(ts[0], SettlementOf(repo, ts[0]), id, price);
  }

  lemma SavedInPair(t: Trade, e: Event, id: OrderId, price: real)
    requires !e.TradeExecuted?
    ensures Saved([TradeExecuted(t), e], id, price) == SavedBy(t, id, price)
  {
    hide Value;
    var es := [TradeExecuted(t), e];
    assert es[1..] == [e];
    NothingSaved([e], id, price);
  }

  /** A trade saves a BUY order what the fill it stands for leaves of its price. */
  predicate Keeps(p: Placement, t: Trade, f: Fill) {
    var price := EffectivePrice(p.side, p.otype, p.price);
    SavedBy(t, p.id, price) == Value(price - PricePaid(p, f), f.qty)
  }

  lemma FillIs(p: Placement, f: Fill)
    requires p.side == Buy
    ensures Keeps(p, TradeFor(p.symbol, Buy, Entry(NewOrder(p)), f), f)
  {
    hide Value;
  }

  /** The trades of an accepted order are between orders that are known, on the terms of both. */
  lemma {:induction false} NewTradesKnown(s: State, p: Placement, t: Trade)
    requires Inv(s) && p.id !in s.repo.orders && p.qty > 0.0 && SaneShape(p.side, p.otype, p.price) && Accepts(s, p)
    requires t in TradesOf(s, p)
    ensures Fair(t, DeskFor(s, p).repo.orders)
    ensures (if p.side == Buy then t.buyId else t.sellId) == p.id
  {
    hide Fair, Inv, Submit, Swept;
    TradesAre(s, p);
    AcceptedAgrees(s, p);
    AgreesParts(s, p);
    BookTradesFair(s.repo.Add(NewOrder(p).(status := Routed)), BooksWith(s.books, NewOrder(p).(status := Routed)),
      p.symbol, t);
    TradesSwept(s, p);
  }

  lemma AgreesParts(s: State, p: Placement)
    requires Agrees(LockFunds(s.accounts, p.account, p.id, p.symbol, p.side, p.qty, p.price).accounts,
                    s.repo.Add(NewOrder(p).(status := Routed)), BooksWith(s.books, NewOrder(p).(status := Routed)))
    ensures RepoOk(s.repo.Add(NewOrder(p).(status := Routed)))
    ensures BooksAgree(s.repo.Add(NewOrder(p).(status := Routed)), BooksWith(s.books, NewOrder(p).(status := Routed)))
  {
    hide RepoOk, BooksAgree, LedgerAgrees;
  }

  /** They are the sweep of the opposite queue, and the incoming order is on its side of each of them. */
  lemma {:induction false} TradesSwept(s: State, p: Placement)
    requires Inv(s) && p.id !in s.repo.orders && p.qty > 0.0
    ensures var fs := SweepQueue(p.side, EffectivePrice(p.side, p.otype, p.price), p.qty,
                                 BookOf(s.books, p.symbol).On(Other(p.side))).fills;
      TradesOf(s, p) == TradesFor(p.symbol, p.side, Entry(NewOrder(p)), fs)
    ensures forall t :: t in TradesOf(s, p) ==> (if p.side == Buy then t.buyId else t.sellId) == p.id
  {
    BookOkFrom(s.repo, s.books, p.symbol);
    assert !Crossable(BookOf(s.books, p.symbol));
    assert p.id !in s.seen;
    hide Inv, BookOk, Submit;
    SubmitIsSweep(p.symbol, BookOf(s.books, p.symbol), p.side, Entry(NewOrder(p)));
  }

  lemma {:induction false} SavedOnArrival(s: State, p: Placement)
    requires Inv(s) && p.id !in s.repo.orders && p.qty > 0.0 && SaneShape(p.side, p.otype, p.price) && Accepts(s, p) &&
      p.side == Buy
    ensures Saved(NewEvents(s, Place(p)), p.id, EffectivePrice(p.side, p.otype, p.price))
      == SavedInFills(p, FillsOnArrival(s, p))
  {
    var price := EffectivePrice(p.side, p.otype, p.price);
    hide NewEvents, SubmitOrder, DeskFor, TradesOf, TradeEvents, FillEvents, Accepts, Inv, Fair, SweepQueue, Saved;
    var d := DeskFor(s, p);
    var sub := SubmitOrder(s.books, s.seen, p.symbol, p.side, Entry(NewOrder(p)));
    OnlyRemainders(s, p);
    AcceptedEvents(s, p);
    TradesSwept(s, p);
    forall t | t in sub.trades ensures t.buyId in d.repo.orders && t.sellId in d.repo.orders {
      NewTradesKnown(s, p, t);
      FairKnows(t, d.repo.orders);
    }
    SavedInTrades(d.repo, p, FillsOnArrival(s, p));
    FillsAreInformational(d, sub.trades);
    SavedAround([OrderPlaced(p), OrderAccepted(p.id), OrderRouted(p.id, p.symbol)], TradeEvents(d.repo, sub.trades),
                sub.remain, FillEvents(d, sub.trades), p.id, price);
  }

  lemma FairKnows(t: Trade, orders: map<OrderId, Order>)
    requires Fair(t, orders)
    ensures t.buyId in orders && t.sellId in orders
  {
  }

  /** Events that are no trades save nothing. */
  lemma {:induction false} SavedAround(head: seq<Event>, trades: seq<Event>, remain: seq<Event>, fills: seq<Event>,
                                       id: OrderId, price: real)
    requires forall e :: e in head || e in remain || e in fills ==> !e.TradeExecuted?
    ensures Saved(head + (trades + remain + fills), id, price) == Saved(trades, id, price)
  {
    hide Saved;
    SavedAppend(head, trades + remain + fills, id, price);
    SavedAppend(trades + remain, fills, id, price);
    SavedAppend(trades, remain, id, price);
    NothingSaved(head, id, price);
    NothingSaved(remain, id, price);
    NothingSaved(fills, id, price);
  }

  /** Once a BUY order rests, orders that come no earlier trade with it at its own price. */
  lemma {:induction false} NothingSavedLater(s: State, c: Command, id: OrderId)
    requires Inv(s) && Positive(c) && Sane(c) && (c.Place? ==> c.placement.id !in s.repo.orders)
    requires id in s.repo.orders && s.repo.orders[id].side == Buy &&
      (c.Place? ==> s.repo.orders[id].createdAt <= c.placement.at)
    ensures Saved(NewEvents(s, c), id, s.repo.orders[id].MatchPrice()) == 0.0
  {
    var price := s.repo.orders[id].MatchPrice();
    forall e | e in NewEvents(s, c) && e.TradeExecuted? && e.trade.buyId == id ensures e.trade.price == price {
      LaterTrade(s, c, id, e);
    }
    hide NewEvents, Saved;
    NothingSaved(NewEvents(s, c), id, price);
  }

  lemma {:induction false} LaterTrade(s: State, c: Command, id: OrderId, e: Event)
    requires Inv(s) && Positive(c) && Sane(c) && (c.Place? ==> c.placement.id !in s.repo.orders)
    requires id in s.repo.orders && s.repo.orders[id].side == Buy &&
      (c.Place? ==> s.repo.orders[id].createdAt <= c.placement.at)
    requires e in NewEvents(s, c) && e.TradeExecuted? && e.trade.buyId == id
    ensures e.trade.price == s.repo.orders[id].MatchPrice()
  {
    hide Inv;
    var p := c.placement;
    AcceptedTrade(s, p, e);
    NewTradesKnown(s, p, e.trade);
    hide NewEvents, Inv, TradesOf;
    assert DeskFor(s, p).repo.orders == s.repo.orders[p.id := NewOrder(p).(status := Routed)];
  }

  // ---------- over a run ----------

  lemma {:induction false} NothingSavedBefore(cmds: seq<Command>, id: OrderId, price: real)
    requires WellFormed(cmds) && SaneRun(cmds) && Exec(cmds).Done? && id !in Exec(cmds).value.repo.orders
    ensures Saved(Exec(cmds).value.log, id, price) == 0.0
  {
    EveryTradeFair(cmds);
    var s := Exec(cmds).value;
    assert forall e :: e in s.log && e.TradeExecuted? ==> Fair(e.trade, s.repo.orders);
    hide Exec;
    NothingSaved(s.log, id, price);
  }

  /** The order a placement became, and what it has saved so far. */
  ghost predicate SavedSoFar(s: State, p: Placement, t: State) {
    && p.id in t.repo.orders && SameTerms(NewOrder(p), t.repo.orders[p.id])
    && (!Accepts(s, p) ==> t.repo.orders[p.id].status == Rejected)
    && Saved(t.log, p.id, EffectivePrice(p.side, p.otype, p.price))
      == if Accepts(s, p) then SavedInFills(p, FillsOnArrival(s, p)) else 0.0
  }

  lemma {:induction false} SavedWhenPlaced(s: State, p: Placement)
    requires Inv(s) && p.id !in s.repo.ids && p.qty > 0.0 && SaneShape(p.side, p.otype, p.price) && p.side == Buy
    requires Saved(s.log, p.id, EffectivePrice(p.side, p.otype, p.price)) == 0.0
    ensures Step(s, Place(p)).Done? && SavedSoFar(s, p, Step(s, Place(p)).value)
  {
    var price := EffectivePrice(p.side, p.otype, p.price);
    hide Inv, NewEvents, Saved, Step, Accepts, FillsOnArrival;
    IdsMatch(s);
    StepKeepsInv(s, Place(p));
    var t := Step(s, Place(p)).value;
    IdsMatch(t);
    StepKeepsTerms(s, Place(p));
    StepLog(s, Place(p));
    SavedAppend(s.log, NewEvents(s, Place(p)), p.id, price);
    if Accepts(s, p) { SavedOnArrival(s, p); }
    else {
      RejectedTradesNothing(s, p);
      NothingSaved(NewEvents(s, Place(p)), p.id, price);
    }
  }

  lemma RejectedTradesNothing(s: State, p: Placement)
    requires !Accepts(s, p)
    ensures forall e :: e in NewEvents(s, Place(p)) ==> !e.TradeExecuted?
    ensures Step(s, Place(p)).Done? && p.id in Step(s, Place(p)).value.repo.orders
    ensures Step(s, Place(p)).value.repo.orders[p.id].status == Rejected
  {
  }

  lemma TradeKeepsRejected(d: Desk, t: Trade, id: OrderId)
    requires ApplyTrade(d, t).Done? && id in d.repo.orders && d.repo.orders[id].status == Rejected
    ensures var r := ApplyTrade(d, t).value.repo; id in r.orders && r.orders[id].status == Rejected
  {
    hide TrySettle;
  }

  lemma {:induction false} TradesKeepRejected(d: Desk, ts: seq<Trade>, id: OrderId)
    requires ApplyTrades(d, ts).Done? && id in d.repo.orders && d.repo.orders[id].status == Rejected
    ensures var r := ApplyTrades(d, ts).value.repo; id in r.orders && r.orders[id].status == Rejected
    decreases |ts|
  {
    if ts != [] {
      hide ApplyTrade;
      TradeKeepsRejected(d, ts[0], id);
      TradesKeepRejected(ApplyTrade(d, ts[0]).value, ts[1..], id);
    }
  }

  /** A rejected order stays rejected. */
  lemma RejectedStays(s: State, c: Command, id: OrderId)
    requires Step(s, c).Done? && (c.Place? ==> c.placement.id !in s.repo.orders)
    requires id in s.repo.orders && s.repo.orders[id].status == Rejected
    ensures id in Step(s, c).value.repo.orders && Step(s, c).value.repo.orders[id].status == Rejected
  {
    if c.Place? && Accepts(s, c.placement) {
      PlaceUnfolds(s, c.placement);
      TradesKeepRejected(DeskFor(s, c.placement), TradesOf(s, c.placement), id);
    }
  }

  lemma {:induction false} SavedOneMore(s: State, p: Placement, t: State, c: Command)
    requires SavedSoFar(s, p, t) && p.side == Buy && Inv(t) && Positive(c) && Sane(c)
    requires c.Place? ==> c.placement.id !in t.repo.ids && p.at <= c.placement.at
    ensures Step(t, c).Done? && SavedSoFar(s, p, Step(t, c).value)
  {
    hide Inv, NewEvents, Saved, Step, Accepts, FillsOnArrival;
    IdsMatch(t);
    StepKeepsInv(t, c);
    StepKeepsTerms(t, c);
    StepLog(t, c);
    SavedAppend(t.log, NewEvents(t, c), p.id, EffectivePrice(p.side, p.otype, p.price));
    NothingSavedLater(t, c, p.id);
    if !Accepts(s, p) { RejectedStays(t, c, p.id); }
  }

  lemma {:induction false} SavedSince(cmds: seq<Command>, i: nat)
    requires WellFormed(cmds) && SaneRun(cmds) && NotBack(cmds)
    requires i < |cmds| && cmds[i].Place? && cmds[i].placement.side == Buy
    ensures Exec(cmds[..i]).Done? && Exec(cmds).Done?
    ensures SavedSoFar(Exec(cmds[..i]).value, cmds[i].placement, Exec(cmds).value)
    decreases |cmds|
  {
    hide SavedSoFar, Inv, Step;
    var n := |cmds| - 1;
    var init, c := cmds[..n], cmds[n];
    assert cmds == init + [c];
    NextCommand(init, c);
    RunsAgree(init);
    RunsAgree(cmds);
    if i == n {
      var p := cmds[i].placement;
      IdsMatch(Exec(init).value);
      NothingSavedBefore(init, p.id, EffectivePrice(p.side, p.otype, p.price));
      SavedWhenPlaced(Exec(init).value, p);
    } else {
      assert NotBack(init) by { assert forall k :: 0 <= k < n ==> init[k] == cmds[k]; }
      SavedSince(init, i);
      assert init[..i] == cmds[..i];
      SavedOneMore(Exec(cmds[..i]).value, cmds[i].placement, Exec(init).value, c);
    }
  }

  // ---------- what the lock holds ----------

  lemma {:induction false} ScanCounts(f: Findings, es: seq<Event>, id: OrderId)
    ensures Scan(f, es).Traded(id) == f.Traded(id) + Bought(es, id) + Sold(es, id)
    decreases |es|
  {
    if es != [] { ScanCounts(Note(f, es[0]), es[1..], id); }
  }

  lemma {:induction false} NothingSold(es: seq<Event>, id: OrderId)
    requires forall e :: e in es && e.TradeExecuted? ==> e.trade.sellId != id
    ensures Sold(es, id) == 0.0
  {
    if es != [] {
      assert es[0] in es;
      NothingSold(es[1..], id);
    }
  }

  /** A BUY order's filled quantity is what the log says it bought. */
  lemma {:induction false} BoughtIsFilled(cmds: seq<Command>, id: OrderId)
    requires WellFormed(cmds) && SaneRun(cmds) && Exec(cmds).Done?
    requires id in Exec(cmds).value.repo.orders && Exec(cmds).value.repo.orders[id].side == Buy
    ensures Bought(Exec(cmds).value.log, id) == Exec(cmds).value.repo.orders[id].filled
  {
    EveryTradeFair(cmds);
    LogTellsOrders(cmds);
    var s := Exec(cmds).value;
    assert forall e :: e in s.log && e.TradeExecuted? ==> Fair(e.trade, s.repo.orders);
    hide Exec, Scan;
    NothingSold(s.log, id);
    ScanCounts(NO_FINDINGS, s.log, id);
  }

  /** The lock of a BUY order that was accepted and not canceled, from what it saved. */
  lemma {:induction false} LockFromSavings(cmds: seq<Command>, id: OrderId)
    requires WellFormed(cmds) && SaneRun(cmds) && Exec(cmds).Done?
    requires id in Exec(cmds).value.repo.orders
    requires Exec(cmds).value.repo.orders[id].side == Buy && HoldsLock(Exec(cmds).value.repo.orders[id])
    ensures var s := Exec(cmds).value;
      var o := s.repo.orders[id];
      && id in s.accounts.Get(o.account).locks
      && s.accounts.Get(o.account).locks[id].cash
          == Value(o.Limit(), o.qty) - Value(o.MatchPrice(), o.filled) + Saved(s.log, id, o.MatchPrice())
  {
    hide Value, Exec, Saved, Spent, Bought;
    LocksAreExact(cmds);
    RunsAgree(cmds);
    var s := Exec(cmds).value;
    IdsMatch(s);
    ExactRead(s, id);
    BoughtIsFilled(cmds, id);
    SavedIs(s.log, id, s.repo.orders[id].MatchPrice());
  }

  /**
   * The lock, foretold: what the lock of an accepted BUY order that is not canceled holds is told, at any later
   * time, by its quantity filled so far and by the book it was placed on. It keeps its limit for all of its
   * quantity, less its matching price for what is filled, and what the resting offers it met were cheaper.
   */
  lemma {:induction false} LockForetold(cmds: seq<Command>, i: nat)
    requires WellFormed(cmds) && SaneRun(cmds) && NotBack(cmds)
    requires i < |cmds| && cmds[i].Place? && cmds[i].placement.side == Buy
    ensures Exec(cmds[..i]).Done? && Exec(cmds).Done? && cmds[i].placement.id in Exec(cmds).value.repo.orders
    ensures var p, s, t := cmds[i].placement, Exec(cmds[..i]).value, Exec(cmds).value;
      var o := t.repo.orders[p.id];
      HoldsLock(o) ==>
        && p.price.Some? && p.id in t.accounts.Get(p.account).locks
        && t.accounts.Get(p.account).locks[p.id].cash == Value(p.price.value, p.qty)
            - Value(EffectivePrice(p.side, p.otype, p.price), o.filled) + SavedInFills(p, FillsOnArrival(s, p))
  {
    hide *;
    SavedSince(cmds, i);
    RunsAgree(cmds);
    var p, s, t := cmds[i].placement, Exec(cmds[..i]).value, Exec(cmds).value;
    TermsOf(s, p, t);
    if HoldsLock(t.repo.orders[p.id]) {
      LockFromSavings(cmds, p.id);
      Foretold(s, p, t);
    }
  }

  lemma TermsOf(s: State, p: Placement, t: State)
    requires SavedSoFar(s, p, t)
    ensures p.id in t.repo.orders
    ensures var o := t.repo.orders[p.id]; o.side == p.side && o.account == p.account && o.qty == p.qty
  {
  }

  /** The lock in terms of the placement. */
  lemma Foretold(s: State, p: Placement, t: State)
    requires SavedSoFar(s, p, t) && Inv(t) && p.side == Buy && HoldsLock(t.repo.orders[p.id])
    requires p.id in t.accounts.Get(p.account).locks
    requires var o := t.repo.orders[p.id];
      t.accounts.Get(p.account).locks[p.id].cash
        == Value(o.Limit(), o.qty) - Value(o.MatchPrice(), o.filled) + Saved(t.log, p.id, o.MatchPrice())
    ensures p.price.Some?
    ensures t.accounts.Get(p.account).locks[p.id].cash == Value(p.price.value, p.qty)
      - Value(EffectivePrice(p.side, p.otype, p.price), t.repo.orders[p.id].filled)
      + SavedInFills(p, FillsOnArrival(s, p))
  {
    assert OrderOk(p.id, t.repo.orders[p.id]);
    hide Value, Saved, SavedInFills, FillsOnArrival, Inv, Accepts;
  }

  // ---------- exactly when nothing is stranded ----------

  /** The order pays its own price on arrival, whatever it meets. */
  predicate NothingCheaper(s: State, p: Placement) {
    forall i :: 0 <= i < |FillsOnArrival(s, p)| ==>
      PricePaid(p, FillsOnArrival(s, p)[i]) == EffectivePrice(p.side, p.otype, p.price)
  }

  lemma ValueSign(price: real, qty: real)
    requires price >= 0.0 && qty > 0.0
    ensures Value(price, qty) >= 0.0 && (Value(price, qty) == 0.0 <==> price == 0.0)
  {
    if price > 0.0 { assert price * qty > 0.0; }
  }

  lemma {:induction false} SavingsSign(p: Placement, fs: seq<Fill>)
    requires forall i ::
      0 <= i < |fs| ==> fs[i].qty > 0.0 && PricePaid(p, fs[i]) <= EffectivePrice(p.side, p.otype, p.price)
    ensures SavedInFills(p, fs) >= 0.0
    ensures SavedInFills(p, fs) == 0.0 <==>
      forall i :: 0 <= i < |fs| ==> PricePaid(p, fs[i]) == EffectivePrice(p.side, p.otype, p.price)
  {
    hide Value;
    if fs != [] {
      assert forall i :: 0 <= i < |fs| - 1 ==> fs[1..][i] == fs[i + 1];
      SavingsSign(p, fs[1..]);
      ValueSign(EffectivePrice(p.side, p.otype, p.price) - PricePaid(p, fs[0]), fs[0].qty);
      assert (forall i :: 0 <= i < |fs| ==> PricePaid(p, fs[i]) == EffectivePrice(p.side, p.otype, p.price)) <==>
        PricePaid(p, fs[0]) == EffectivePrice(p.side, p.otype, p.price)
        && forall i :: 0 <= i < |fs[1..]| ==> PricePaid(p, fs[1..][i]) == EffectivePrice(p.side, p.otype, p.price) by {
        assert forall i :: 0 < i < |fs| ==> fs[i] == fs[1..][i - 1];
      }
    }
  }

  /** The fills on arrival come from the front of the offers, each of which the order's price reaches. */
  lemma {:induction false} ArrivalFrontFirst(s: State, p: Placement)
    requires Inv(s) && p.qty > 0.0
    ensures var asks := BookOf(s.books, p.symbol).asks;
      var limit := EffectivePrice(p.side, p.otype, p.price);
      && BookOk(BookOf(s.books, p.symbol))
      && FrontFirst(Buy, limit, asks, SweepQueue(Buy, limit, p.qty, asks))
      && (asks != [] && asks[0].price <= limit ==> FillsOnArrival(s, p) != [])
  {
    BookOkFrom(s.repo, s.books, p.symbol);
    SweepFrontFirst(Buy, EffectivePrice(p.side, p.otype, p.price), p.qty, BookOf(s.books, p.symbol).asks);
  }

  /**
   * Exactly when the lock of a filled BUY order is used up, by what is known before it is placed: its limit is the
   * price it is matched at, and every offer it would meet on arrival is at that price or stamped no earlier. A MARKET
   * BUY priced above the market price therefore always strands cash.
   */
  lemma {:induction false} ResidueExactly(cmds: seq<Command>, i: nat)
    requires WellFormed(cmds) && SaneRun(cmds) && NotBack(cmds)
    requires i < |cmds| && cmds[i].Place? && cmds[i].placement.side == Buy
    requires Exec(cmds).Done? && cmds[i].placement.id in Exec(cmds).value.repo.orders
    requires Exec(cmds).value.repo.orders[cmds[i].placement.id].status == Status.Filled
    ensures Exec(cmds[..i]).Done? && cmds[i].placement.price.Some?
    ensures var p, s, t := cmds[i].placement, Exec(cmds[..i]).value, Exec(cmds).value;
      && p.id in t.accounts.Get(p.account).locks
      && t.accounts.Get(p.account).locks[p.id].cash >= 0.0
      && (t.accounts.Get(p.account).locks[p.id].cash == 0.0 <==>
            p.price.value == EffectivePrice(p.side, p.otype, p.price) && NothingCheaper(s, p))
  {
    hide Exec, Value, SweepQueue;
    LockForetold(cmds, i);
    RunsAgree(cmds);
    PrefixAdmits(cmds, i);
    RunsAgree(cmds[..i]);
    var p, s, t := cmds[i].placement, Exec(cmds[..i]).value, Exec(cmds).value;
    FilledWhole(t, p.id);
    SavedSince(cmds, i);
    ArrivalFrontFirst(s, p);
    hide Inv, FrontFirst;
    ResidueSign(s, p);
  }

  /** The residue of a filled order is zero exactly when each of its parts is. */
  lemma {:induction false} ResidueSign(s: State, p: Placement)
    requires p.qty > 0.0 && p.price.Some? && p.price.value >= EffectivePrice(p.side, p.otype, p.price)
    requires var asks, limit := BookOf(s.books, p.symbol).asks, EffectivePrice(p.side, p.otype, p.price);
      FrontFirst(Buy, limit, asks, SweepQueue(Buy, limit, p.qty, asks))
    ensures var limit := EffectivePrice(p.side, p.otype, p.price);
      var residue := Value(p.price.value, p.qty) - Value(limit, p.qty) + SavedInFills(p, FillsOnArrival(s, p));
      residue >= 0.0 && (residue == 0.0 <==> p.price.value == limit && NothingCheaper(s, p))
  {
    hide Value, SweepQueue, EffectivePrice, SavedInFills;
    var limit := EffectivePrice(p.side, p.otype, p.price);
    SavingsSign(p, FillsOnArrival(s, p));
    ValueSplits(p.price.value, limit, p.qty, 0.0);
    ValueSign(p.price.value - limit, p.qty);
  }

  /** A filled MARKET BUY that carried more than what MARKET orders are matched at leaves at least the difference. */
  lemma {:induction false} DearMarketBuyStrands(cmds: seq<Command>, i: nat)
    requires WellFormed(cmds) && SaneRun(cmds) && NotBack(cmds)
    requires i < |cmds| && cmds[i].Place? && cmds[i].placement.side == Buy && cmds[i].placement.otype == Market
    requires cmds[i].placement.price.Some? && cmds[i].placement.price.value > 999999999.0
    requires Exec(cmds).Done? && cmds[i].placement.id in Exec(cmds).value.repo.orders
    requires Exec(cmds).value.repo.orders[cmds[i].placement.id].status == Status.Filled
    ensures var p, t := cmds[i].placement, Exec(cmds).value;
      && p.id in t.accounts.Get(p.account).locks
      && t.accounts.Get(p.account).locks[p.id].cash >= Value(p.price.value - 999999999.0, p.qty) > 0.0
  {
    hide *;
    LockForetold(cmds, i);
    RunsAgree(cmds);
    PrefixAdmits(cmds, i);
    RunsAgree(cmds[..i]);
    var p, s, t := cmds[i].placement, Exec(cmds[..i]).value, Exec(cmds).value;
    SavedSince(cmds, i);
    TermsOf(s, p, t);
    FilledWhole(t, p.id);
    ArrivalFrontFirst(s, p);
    DearResidue(s, p);
  }

  lemma {:induction false} DearResidue(s: State, p: Placement)
    requires p.qty > 0.0 && p.side == Buy && p.otype == Market && p.price.Some? && p.price.value > 999999999.0
    requires var asks, limit := BookOf(s.books, p.symbol).asks, EffectivePrice(p.side, p.otype, p.price);
      FrontFirst(Buy, limit, asks, SweepQueue(Buy, limit, p.qty, asks))
    ensures var limit := EffectivePrice(p.side, p.otype, p.price);
      Value(p.price.value, p.qty) - Value(limit, p.qty) + SavedInFills(p, FillsOnArrival(s, p))
        >= Value(p.price.value - 999999999.0, p.qty) > 0.0
  {
    hide Value, SweepQueue, SavedInFills;
    SavingsSign(p, FillsOnArrival(s, p));
    ValueSplits(p.price.value, 999999999.0, p.qty, 0.0);
    ValueSign(p.price.value - 999999999.0, p.qty);
  }

  lemma PrefixAdmits(cmds: seq<Command>, i: nat)
    requires WellFormed(cmds) && SaneRun(cmds) && i <= |cmds|
    ensures WellFormed(cmds[..i]) && SaneRun(cmds[..i])
  {
    assert forall k :: 0 <= k < i ==> cmds[..i][k] == cmds[k];
  }

  lemma FilledWhole(t: State, id: OrderId)
    requires Inv(t) && id in t.repo.orders && t.repo.orders[id].status == Status.Filled
    ensures var o := t.repo.orders[id]; o.filled == o.qty > 0.0 && HoldsLock(o) == (o.side == Buy)
    ensures var o := t.repo.orders[id]; SaneShape(o.side, o.otype, o.price)
  {
    assert OrderOk(id, t.repo.orders[id]);
  }

  /** On a moving clock everything that rests was stamped before what is placed. */
  lemma {:induction false} RestingIsEarlier(cmds: seq<Command>, i: nat)
    requires WellFormed(cmds) && SaneRun(cmds) && Clocked(cmds) && i < |cmds| && cmds[i].Place?
    ensures Exec(cmds[..i]).Done?
    ensures var p, s := cmds[i].placement, Exec(cmds[..i]).value;
      forall e :: e in BookOf(s.books, p.symbol).asks ==> e.sortTime < p.at
  {
    hide Exec, Agrees, Inv, GoodStep;
    var init := cmds[..i];
    PrefixAdmits(cmds, i);
    assert Clocked(init) by { assert forall k :: 0 <= k < i ==> init[k] == cmds[k]; }
    StampsInOrder(init);
    RunsAgree(init);
    var p, s := cmds[i].placement, Exec(init).value;
    RestingOrders(s, p.symbol);
    hide Exec, Inv, SideMatches, WellFormed;
    forall e | e in BookOf(s.books, p.symbol).asks ensures e.sortTime < p.at {
      assert StampedBy(init, s.repo.orders[e.orderId]);
      var o := s.repo.orders[e.orderId];
      var c :| c in init && c.Place? && c.placement.id == o.id && c.placement.at == o.createdAt;
      var k :| 0 <= k < i && init[k] == c;
      assert cmds[k] == c;
    }
  }

  lemma RestingOrders(s: State, sym: Symbol)
    requires Inv(s)
    ensures forall e :: e in BookOf(s.books, sym).asks ==>
      e.orderId in s.repo.orders && e.sortTime == s.repo.orders[e.orderId].createdAt
  {
    assert SideMatches(s.repo, s.books, sym, Sell);
  }

  /** The best offer tells whether anything met on arrival is cheaper. */
  lemma {:induction false} CheaperWhen(s: State, p: Placement)
    requires Inv(s) && p.qty > 0.0 && forall e :: e in BookOf(s.books, p.symbol).asks ==> e.sortTime < p.at
    ensures var asks := BookOf(s.books, p.symbol).asks;
      NothingCheaper(s, p) <==> asks == [] || asks[0].price >= EffectivePrice(p.side, p.otype, p.price)
  {
    ArrivalFrontFirst(s, p);
    hide SweepQueue, Inv;
    var asks, limit := BookOf(s.books, p.symbol).asks, EffectivePrice(p.side, p.otype, p.price);
    var fs := FillsOnArrival(s, p);
    forall k | 0 <= k < |fs| ensures PricePaid(p, fs[k]) == asks[k].price && asks[0].price <= asks[k].price <= limit {
      assert asks[k] in asks && asks[0] in asks && fs[k].resting == asks[k];
      assert k == 0 || !Before(asks[k], asks[0]);
    }
    if asks != [] && asks[0].price < limit { assert PricePaid(p, fs[0]) == asks[0].price; }
  }

  /**
   * On a moving clock: the lock of a filled BUY order is used up if and only if it was limited to the price it was
   * matched at and its symbol's best offer, when it was placed, was not below that price.
   */
  lemma {:induction false} ResidueOnMovingClock(cmds: seq<Command>, i: nat)
    requires WellFormed(cmds) && SaneRun(cmds) && Clocked(cmds)
    requires i < |cmds| && cmds[i].Place? && cmds[i].placement.side == Buy
    requires Exec(cmds).Done? && cmds[i].placement.id in Exec(cmds).value.repo.orders
    requires Exec(cmds).value.repo.orders[cmds[i].placement.id].status == Status.Filled
    ensures Exec(cmds[..i]).Done? && cmds[i].placement.price.Some?
    ensures var p, s, t := cmds[i].placement, Exec(cmds[..i]).value, Exec(cmds).value;
      var asks, limit := BookOf(s.books, p.symbol).asks, EffectivePrice(p.side, p.otype, p.price);
      && p.id in t.accounts.Get(p.account).locks
      && (t.accounts.Get(p.account).locks[p.id].cash == 0.0 <==>
            p.price.value == limit && (asks == [] || asks[0].price >= limit))
  {
    hide Exec, FillsOnArrival, Inv;
    ResidueExactly(cmds, i);
    RestingIsEarlier(cmds, i);
    PrefixAdmits(cmds, i);
    RunsAgree(cmds[..i]);
    CheaperWhen(Exec(cmds[..i]).value, cmds[i].placement);
  }
}

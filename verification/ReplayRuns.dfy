/** Replaying the log gives back the live accounts, after every command of every run. */
module ReplayRuns {
  import opened Domain
  import opened PriceTime
  import opened Matching
  import opened Ledger
  import opened Orders
  import opened Exchange
  import opened Agreement
  import opened Settling
  import opened Runs
  import opened LogShape
  import opened Projection

  // ---------- pieces of a log ----------

  lemma ReplayOne(l: Accounts, e: Event)
    ensures Replay(l, [e]) == ReplayEvent(l, e)
  {
    if ReplayEvent(l, e).Done? { assert [e][1..] == []; }
  }

  lemma ReplayCons(l: Accounts, e: Event, es: seq<Event>)
    requires ReplayEvent(l, e).Done?
    ensures Replay(l, [e] + es) == Replay(ReplayEvent(l, e).value, es)
  {
    ReplayOne(l, e);
    ReplayAppend(l, [e], es);
  }

  predicate Informational(e: Event) {
    !(e.AccountUpdated? || e.AccountDeleted? || e.OrderPlaced? || e.OrderRejected? || e.OrderCanceled? ||
      e.TradeSettlement?)
  }

  lemma {:induction false} ReplayInformational(l: Accounts, es: seq<Event>)
    requires forall e :: e in es ==> Informational(e)
    ensures Replay(l, es) == Done(l)
    decreases |es|
  {
    if es != [] {
      assert es[0] in es;
      ReplayInformational(l, es[1..]);
    }
  }

  lemma {:induction false} FillsAreInformational(d: Desk, ts: seq<Trade>)
    ensures forall e :: e in FillEvents(d, ts) ==> e.OrderFilled?
    decreases |ts|
  {
    hide TrySettle;
    if ts != [] && ApplyTrade(d, ts[0]).Done? {
      var d1 := ApplyTrade(d, ts[0]).value;
      assert forall e :: e in d1.fills[|d.fills|..] ==> e.OrderFilled?;
      FillsAreInformational(d1, ts[1..]);
    }
  }

  lemma EveryPutKeeps()
    ensures forall l: Accounts, a, acct :: AccountsOk(l) ==> AccountsOk(l.Put(a, acct))
  {
    forall l: Accounts, a, acct | AccountsOk(l) ensures AccountsOk(l.Put(a, acct)) { PutKeeps(l, a, acct); }
  }

  lemma DropKeeps(l: Accounts, a: AccountId)
    requires AccountsOk(l)
    ensures AccountsOk(l.Drop(a))
  {
    WithoutMeans(l.ids, a);
    WithoutDistinct(l.ids, a);
  }

  lemma {:induction false} ReplayEventKeepsIds(l: Accounts, e: Event)
    requires AccountsOk(l) && ReplayEvent(l, e).Done?
    ensures AccountsOk(ReplayEvent(l, e).value)
  {
    EveryPutKeeps();
    if e.AccountDeleted? { DropKeeps(l, e.account); }
    hide AccountsOk;
  }

  lemma {:induction false} ReplayKeepsIds(l: Accounts, es: seq<Event>)
    requires AccountsOk(l) && Replay(l, es).Done?
    ensures AccountsOk(Replay(l, es).value)
    decreases |es|
  {
    if es != [] {
      ReplayEventKeepsIds(l, es[0]);
      ReplayKeepsIds(ReplayEvent(l, es[0]).value, es[1..]);
    }
  }

  // ---------- trades ----------

  predicate HasId(es: seq<BookEntry>, id: OrderId) { exists e :: e in es && e.orderId == id }

  lemma TakeTopIds(es: seq<BookEntry>, q: real, id: OrderId)
    requires es != [] && HasId(TakeTop(es, q), id)
    ensures HasId(es, id)
  {
    var e :| e in TakeTop(es, q) && e.orderId == id;
    assert es == [es[0]] + es[1..];
    assert e in es || e.orderId == es[0].orderId;
  }

  /** Only orders resting on the book trade. */
  lemma {:induction false} TradersRest(sym: Symbol, b: Book, t: Trade)
    requires t in Match(sym, b).trades
    ensures HasId(b.bids, t.buyId) && HasId(b.asks, t.sellId)
    decreases |b.bids| + |b.asks|
  {
    assert b.bids[0] in b.bids && b.asks[0] in b.asks;
    var b1 := CrossOnce(b);
    if t in Match(sym, b1).trades {
      TradersRest(sym, b1, t);
      var q := Min(b.bids[0].qty, b.asks[0].qty);
      TakeTopIds(b.bids, q, t.buyId);
      TakeTopIds(b.asks, q, t.sellId);
    }
  }

  lemma {:induction false} ReplayTrades(d: Desk, l: Accounts, ts: seq<Trade>, dead: set<OrderId>)
    requires ApplyTrades(d, ts).Done? && Twins(l, d.accounts, dead)
    ensures Replay(l, TradeEvents(d.repo, ts)).Done?
    ensures Twins(Replay(l, TradeEvents(d.repo, ts)).value, ApplyTrades(d, ts).value.accounts, dead)
    decreases |ts|
  {
    if ts != [] {
      var t := ts[0];
      assert t in ts;
      var d1 := ApplyTrade(d, t).value;
      TradeLog(d, t);
      var buyer, seller := d.repo.orders[t.buyId].account, d.repo.orders[t.sellId].account;
      var l1 := ReplaySettlement(d, l, t, dead);
      SameOwnersSameEvents(d.repo, d1.repo, ts[1..]);
      assert forall x :: x in ts[1..] ==> x in ts;
      ReplayTrades(d1, l1, ts[1..], dead);
      ReplayPair(l, TradeExecuted(t), SettlementOf(d.repo, t), TradeEvents(d.repo, ts[1..]));
    }
  }

  lemma ReplayPair(l: Accounts, e: Event, f: Event, es: seq<Event>)
    requires Informational(e) && ReplayEvent(l, f).Done?
    ensures Replay(l, [e, f] + es) == Replay(ReplayEvent(l, f).value, es)
  {
    assert [e, f] + es == [e] + ([f] + es);
    ReplayCons(l, e, [f] + es);
    ReplayCons(l, f, es);
  }

  lemma ReplaySettlementIs(l: Accounts, b: AccountId, s: AccountId, bid: OrderId, sid: OrderId, sym: Symbol,
                           price: real, qty: real)
    ensures var l0 := l.Put(b, l.Get(b));
      ReplayEvent(l, TradeSettlement(b, s, bid, sid, sym, price, qty)) ==
        TrySettle(l0.Put(s, l0.Get(s)), b, s, bid, sid, sym, price, qty)
  {
    hide TrySettle;
  }

  lemma ReplaySettlement(d: Desk, l: Accounts, t: Trade, dead: set<OrderId>) returns (l1: Accounts)
    requires ApplyTrade(d, t).Done? && Twins(l, d.accounts, dead)
    requires t.buyId in d.repo.orders && t.sellId in d.repo.orders
    ensures ReplayEvent(l, SettlementOf(d.repo, t)) == Done(l1)
    ensures Twins(l1, ApplyTrade(d, t).value.accounts, dead)
  {
    hide TrySettle, Twins, ApplyTrade, ReplayEvent;
    var b, s := d.repo.orders[t.buyId].account, d.repo.orders[t.sellId].account;
    TradeSettles(d, t);
    TwinsTouch(l, d.accounts, dead, b);
    var la := l.Put(b, l.Get(b));
    TwinsTouch(la, d.accounts, dead, s);
    var lb := la.Put(s, la.Get(s));
    TwinsTrySettle(lb, d.accounts, dead, b, s, t.buyId, t.sellId, t.symbol, t.price, t.qty);
    ReplaySettlementIs(l, b, s, t.buyId, t.sellId, t.symbol, t.price, t.qty);
    l1 := TrySettle(lb, b, s, t.buyId, t.sellId, t.symbol, t.price, t.qty).value;
  }

  // ---------- one command ----------

  /** Orders that can no longer trade or be canceled. */
  predicate Dead(repo: Repo, dead: set<OrderId>) {
    forall id :: id in dead ==> id in repo.orders && !Live(repo.orders[id])
  }

  /**
   * Orders that hold nothing: those that can no longer trade or be canceled, and BUY orders whose locks have no cash
   * in them.
   */
  ghost predicate Dormant(s: State, dead: set<OrderId>) {
    forall id :: id in dead ==>
      && id in s.repo.orders
      && var o := s.repo.orders[id];
      Live(o) ==>
        o.side == Buy && id in s.accounts.Get(o.account).locks && s.accounts.Get(o.account).locks[id].cash == 0.0
  }

  /** Replaying these events never aborts and leads to twins of the given accounts. */
  ghost predicate Replays(l: Accounts, es: seq<Event>, m: Accounts, dead: set<OrderId>) {
    Replay(l, es).Done? && Twins(Replay(l, es).value, m, dead)
  }

  /** One command of the live exchange, and the replay of what it logged. */
  ghost predicate StepReplays(s: State, c: Command, l: Accounts, dead: set<OrderId>) {
    Step(s, c).Done? && Replays(l, NewEvents(s, c), Step(s, c).value.accounts, dead)
  }

  /** What the events of a change of funds do when replayed. */
  lemma {:induction false} ReplayedFunds(s: State, c: Command, l: Accounts)
    requires Positive(c) && (c.CashIn? || c.CashOut? || c.SharesIn?)
    requires l.Get(c.account).cashAvail == s.accounts.Get(c.account).cashAvail
    ensures Replay(l, NewEvents(s, c)) ==
      Done(if NewEvents(s, c) == [] then l else l.Put(c.account, FundsAfter(l.Get(c.account), c)))
    ensures NewEvents(s, c) == [] ==> FundsAfter(s.accounts.Get(c.account), c) == s.accounts.Get(c.account)
  {
    hide LockFunds, TrySettle, ReleaseOwned, RoutingEvents;
    if NewEvents(s, c) != [] {
      ReplayOne(l, NewEvents(s, c)[0]);
      assert NewEvents(s, c) == [NewEvents(s, c)[0]];
      var a, x := c.account, FundsAfter(l.Get(c.account), c);
      assert l.Put(a, l.Get(a)).Put(a, x) == l.Put(a, x);
    }
  }

  lemma TwinFunds(x: Account, y: Account, dead: set<OrderId>, c: Command)
    requires Twin(x, y, dead) && (c.CashIn? || c.CashOut? || c.SharesIn?)
    ensures Twin(FundsAfter(x, c), FundsAfter(y, c), dead)
  {
    var x', y' := FundsAfter(x, c), FundsAfter(y, c);
    if c.SharesIn? {
      assert x.Pos(c.symbol) == y.Pos(c.symbol);
      TwinSetPos(x, y, dead, c.symbol, x.Pos(c.symbol).(avail := x.Pos(c.symbol).avail + c.qty));
    } else {
      TwinCash(x, y, dead, x'.cashAvail, x.cashLocked);
    }
  }

  lemma TwinOf(l: Accounts, m: Accounts, dead: set<OrderId>, a: AccountId)
    requires Twins(l, m, dead)
    ensures Twin(l.Get(a), m.Get(a), dead) && l.Get(a).cashAvail == m.Get(a).cashAvail
  {
    assert Twin(l.Get(a), m.Get(a), dead);
  }

  /** Cash or shares that come in or go out do so in the replay. */
  lemma {:induction false} ReplayFunds(s: State, c: Command, l: Accounts, dead: set<OrderId>)
    requires Positive(c) && (c.CashIn? || c.CashOut? || c.SharesIn?) && Twins(l, s.accounts, dead)
    ensures StepReplays(s, c, l, dead)
  {
    hide *;
    var a := c.account;
    FundsStep(s, c);
    TwinOf(l, s.accounts, dead, a);
    ReplayedFunds(s, c, l);
    TwinsTouch(l, s.accounts, dead, a);
    TwinFunds(l.Get(a), s.accounts.Get(a), dead, c);
    TwinsPut(l, s.accounts, dead, a, FundsAfter(l.Get(a), c), FundsAfter(s.accounts.Get(a), c));
    Replayed(l, NewEvents(s, c), Step(s, c).value.accounts, dead);
    Conclude(s, c, l, dead);
  }

  lemma Replayed(l: Accounts, es: seq<Event>, m: Accounts, dead: set<OrderId>)
    requires Replay(l, es).Done? && Twins(Replay(l, es).value, m, dead)
    ensures Replays(l, es, m, dead)
  {
  }

  /** Replaying a placement repeats the attempt to lock, with the same outcome. */
  lemma ReplayPlaced(s: State, p: Placement, l: Accounts, dead: set<OrderId>) returns (l1: Accounts)
    requires Twins(l, s.accounts, dead) && p.id !in dead
    ensures ReplayEvent(l, OrderPlaced(p)) == Done(l1)
    ensures Twins(l1, LockFunds(s.accounts, p.account, p.id, p.symbol, p.side, p.qty, p.price).accounts, dead)
  {
    var a := p.account;
    TwinsTouch(l, s.accounts, dead, a);
    var l0 := l.Put(a, l.Get(a));
    var x, y := l0.Get(a), s.accounts.Get(a);
    assert Twin(x, y, dead);
    TwinLock(x, y, dead, p.id, p.symbol, p.side, p.qty, p.price);
    TwinsPut(l0, s.accounts, dead, a, LockIn(x, p.id, p.symbol, p.side, p.qty, p.price).account,
             LockIn(y, p.id, p.symbol, p.side, p.qty, p.price).account);
    l1 := LockFunds(l0, a, p.id, p.symbol, p.side, p.qty, p.price).accounts;
  }

  lemma ReplayRejected(s: State, p: Placement, l: Accounts, dead: set<OrderId>)
    requires Inv(s) && p.id !in s.repo.orders && Dormant(s, dead) && Twins(l, s.accounts, dead)
    requires LockFunds(s.accounts, p.account, p.id, p.symbol, p.side, p.qty, p.price).rejected != None
    ensures StepReplays(s, Place(p), l, dead)
  {
    var l1 := ReplayPlaced(s, p, l, dead);
    var m := LockFunds(s.accounts, p.account, p.id, p.symbol, p.side, p.qty, p.price);
    UnknownUnlocked(s, p.id);
    LockOutcome(s.accounts, p);
    forall a ensures p.id !in l1.Get(a).locks { assert Twin(l1.Get(a), m.accounts.Get(a), dead); }
    hide Inv, LockFunds, Twins, Dormant;
    var e := OrderRejected(p.id, m.rejected.value);
    NothingToGiveBack(l1, p.id);
    ReplayOne(l1, e);
    ReplayCons(l, OrderPlaced(p), [e]);
    assert NewEvents(s, Place(p)) == [OrderPlaced(p)] + [e];
  }

  lemma UnknownUnlocked(s: State, id: OrderId)
    requires Inv(s) && id !in s.repo.orders
    ensures forall a :: id !in s.accounts.Get(a).locks
  {
    hide Balanced;
  }

  /** A new order has a lock exactly if it is accepted. */
  lemma LockOutcome(l: Accounts, p: Placement)
    requires forall a :: p.id !in l.Get(a).locks
    ensures var lock := LockFunds(l, p.account, p.id, p.symbol, p.side, p.qty, p.price);
      && (lock.rejected.Some? ==> forall a :: p.id !in lock.accounts.Get(a).locks)
      && (lock.rejected.None? ==> p.id in lock.accounts.Get(p.account).locks)
  {
    hide Value;
    assert forall a :: p.id !in l.Get(a).locks;
    var r := LockIn(l.Get(p.account), p.id, p.symbol, p.side, p.qty, p.price);
    forall a ensures l.Put(p.account, r.account).Get(a) == if a == p.account then r.account else l.Get(a) {}
  }

  lemma NothingToGiveBack(l: Accounts, id: OrderId)
    requires forall a :: id !in l.Get(a).locks
    ensures forall reason :: ReplayEvent(l, OrderRejected(id, reason)) == Done(l)
  {
  }

  lemma TradersAlive(s: State, p: Placement, dead: set<OrderId>)
    requires Inv(s) && p.id !in s.repo.orders && p.qty > 0.0 && SaneShape(p.side, p.otype, p.price) &&
      Dead(s.repo, dead)
    requires LockFunds(s.accounts, p.account, p.id, p.symbol, p.side, p.qty, p.price).rejected == None
    ensures forall t :: t in SubmitOrder(s.books, s.seen, p.symbol, p.side, Entry(NewOrder(p))).trades ==>
      t.buyId !in dead && t.sellId !in dead
  {
    hide AssetOk;
    var o := NewOrder(p).(status := Routed);
    AcceptedAgrees(s, p);
    var repo, books := s.repo.Add(o), BooksWith(s.books, o);
    var b := BookOf(books, p.symbol);
    assert BooksAgree(repo, books);
    assert SideMatches(repo, books, p.symbol, Buy) && SideMatches(repo, books, p.symbol, Sell);
    assert Entry(o) == Entry(NewOrder(p));
    forall t | t in SubmitOrder(s.books, s.seen, p.symbol, p.side, Entry(NewOrder(p))).trades
      ensures t.buyId !in dead && t.sellId !in dead
    {
      assert t in Match(p.symbol, b).trades;
      TradersRest(p.symbol, b, t);
      var x :| x in b.bids && x.orderId == t.buyId;
      var y :| y in b.asks && y.orderId == t.sellId;
      assert Live(repo.orders[x.orderId]) && Live(repo.orders[y.orderId]);
    }
  }

  lemma {:induction false} ReplayAccepted(s: State, p: Placement, l: Accounts, dead: set<OrderId>)
    requires Inv(s) && p.id !in s.repo.orders && p.qty > 0.0 && SaneShape(p.side, p.otype, p.price)
    requires Dormant(s, dead) && Twins(l, s.accounts, dead)
    requires LockFunds(s.accounts, p.account, p.id, p.symbol, p.side, p.qty, p.price).rejected == None
    ensures StepReplays(s, Place(p), l, dead)
  {
    AcceptedSettles(s, p);
    var l1 := ReplayPlaced(s, p, l, dead);
    var d := DeskFor(s, p);
    var sub := SubmitOrder(s.books, s.seen, p.symbol, p.side, Entry(NewOrder(p)));
    assert forall e :: e in sub.remain ==> e.OrderRemainOnBook?;
    hide *;
    ReplayRouting(d, sub.trades, sub.remain, l1, dead);
    ReplayHeader(l, l1, p, TradeEvents(d.repo, sub.trades) + sub.remain + FillEvents(d, sub.trades));
    AcceptedEvents(s, p);
    Conclude(s, Place(p), l, dead);
  }

  lemma Conclude(s: State, c: Command, l: Accounts, dead: set<OrderId>)
    requires Step(s, c).Done? && Replays(l, NewEvents(s, c), Step(s, c).value.accounts, dead)
    ensures StepReplays(s, c, l, dead)
  {
  }

  lemma ReplayHeader(l: Accounts, l1: Accounts, p: Placement, es: seq<Event>)
    requires ReplayEvent(l, OrderPlaced(p)) == Done(l1)
    ensures Replay(l, [OrderPlaced(p), OrderAccepted(p.id), OrderRouted(p.id, p.symbol)] + es) == Replay(l1, es)
  {
    assert [OrderPlaced(p), OrderAccepted(p.id), OrderRouted(p.id, p.symbol)] + es
        == [OrderPlaced(p)] + ([OrderAccepted(p.id)] + ([OrderRouted(p.id, p.symbol)] + es));
    ReplayCons(l, OrderPlaced(p), [OrderAccepted(p.id)] + ([OrderRouted(p.id, p.symbol)] + es));
    ReplayCons(l1, OrderAccepted(p.id), [OrderRouted(p.id, p.symbol)] + es);
    ReplayCons(l1, OrderRouted(p.id, p.symbol), es);
  }

  lemma {:induction false} ReplayRouting(d: Desk, ts: seq<Trade>, remain: seq<Event>, l: Accounts, dead: set<OrderId>)
    requires ApplyTrades(d, ts).Done? && Twins(l, d.accounts, dead)
    requires forall e :: e in remain ==> e.OrderRemainOnBook?
    ensures Replays(l, TradeEvents(d.repo, ts) + remain + FillEvents(d, ts), ApplyTrades(d, ts).value.accounts, dead)
  {
    ReplayTrades(d, l, ts, dead);
    FillsAreInformational(d, ts);
    var tail := remain + FillEvents(d, ts);
    ReplayInformational(Replay(l, TradeEvents(d.repo, ts)).value, tail);
    ReplayAppend(l, TradeEvents(d.repo, ts), tail);
    Assoc(TradeEvents(d.repo, ts), remain, FillEvents(d, ts));
  }

  /** Replaying a cancellation finds the one account that holds the lock. */
  lemma {:induction false} ReplayRelease(s: State, o: Order, l: Accounts, dead: set<OrderId>)
    requires LocksAgree(s.accounts, s.repo.orders) && o.id in s.repo.orders && s.repo.orders[o.id] == o && Live(o)
    requires Twins(l, s.accounts, dead) && AccountsOk(l) && o.id !in dead
    ensures Replays(l, [OrderCanceled(o.id)], Unlock(s.accounts, o.account, o.id), dead)
  {
    hide *;
    var a := o.account;
    OwnerFound(s, l, o, dead);
    TwinRelease(l.Get(a), s.accounts.Get(a), dead, o.id);
    ReplayedCancel(l, o.id, a);
    TwinsPut(l, s.accounts, dead, a, Release(l.Get(a), o.id), Release(s.accounts.Get(a), o.id));
    UnlockIs(s.accounts, a, o.id);
    Replayed(l, [OrderCanceled(o.id)], Unlock(s.accounts, a, o.id), dead);
  }

  lemma UnlockIs(l: Accounts, a: AccountId, id: OrderId)
    ensures Unlock(l, a, id) == l.Put(a, Release(l.Get(a), id))
  {
    hide Release;
  }

  lemma ReplayedCancel(l: Accounts, id: OrderId, a: AccountId)
    requires LockOwner(l, l.ids, id) == Some(a)
    ensures Replay(l, [OrderCanceled(id)]) == Done(l.Put(a, Release(l.Get(a), id)))
  {
    hide Release, LockFunds, TrySettle;
    ReplayOne(l, OrderCanceled(id));
  }

  lemma TwinsUntouched(l: Accounts, m: Accounts, dead: set<OrderId>, a: AccountId)
    requires Twins(l.Put(a, l.Get(a)), m, dead)
    ensures Twins(l, m, dead)
  {
    hide Twin;
    forall b ensures Twin(l.Get(b), m.Get(b), dead) {
      assert l.Put(a, l.Get(a)).Get(b) == l.Get(b);
      assert Twin(l.Put(a, l.Get(a)).Get(b), m.Get(b), dead);
    }
  }

  /** Canceling a dormant order gives nothing back, and on replay there is nothing to give back. */
  lemma {:induction false} ReplayNothingReleased(s: State, o: Order, l: Accounts, dead: set<OrderId>)
    requires LocksAgree(s.accounts, s.repo.orders) && o.id in s.repo.orders && s.repo.orders[o.id] == o && Live(o)
    requires Twins(l, s.accounts, dead) && o.id in dead && Dormant(s, dead)
    ensures Replays(l, [OrderCanceled(o.id)], Unlock(s.accounts, o.account, o.id), dead)
  {
    hide Replays, LockFunds, TrySettle, Settle, Release;
    var a := o.account;
    forall b ensures o.id !in l.Get(b).locks { assert Twin(l.Get(b), s.accounts.Get(b), dead); }
    ReplayedNowhere(l, o.id);
    TwinOf(l, s.accounts, dead, a);
    assert LockFor(o, s.accounts.Get(a).locks[o.id]);
    TwinReleaseNothing(l.Get(a), s.accounts.Get(a), dead, o.id);
    hide *;
    TwinsPut(l, s.accounts, dead, a, l.Get(a), Release(s.accounts.Get(a), o.id));
    UnlockIs(s.accounts, a, o.id);
    TwinsUntouched(l, Unlock(s.accounts, a, o.id), dead, a);
    Replayed(l, [OrderCanceled(o.id)], Unlock(s.accounts, a, o.id), dead);
  }

  lemma ReplayedNowhere(l: Accounts, id: OrderId)
    requires forall b :: id !in l.Get(b).locks
    ensures Replay(l, [OrderCanceled(id)]) == Done(l)
  {
    hide LockFunds, TrySettle;
    ReplayOne(l, OrderCanceled(id));
  }

  lemma {:induction false} ReplayCancel(s: State, id: OrderId, l: Accounts, dead: set<OrderId>)
    requires Inv(s) && Dormant(s, dead) && Twins(l, s.accounts, dead) && AccountsOk(l)
    ensures StepReplays(s, Cancel(id), l, dead)
  {
    hide *;
    if id in s.repo.orders && s.repo.orders[id].IsCancelable() {
      var o := s.repo.orders[id];
      CancelableIsLive(s, id);
      if id in dead { ReplayNothingReleased(s, o, l, dead); } else { ReplayRelease(s, o, l, dead); }
      CancelTakes(s, o, l, dead);
    } else {
      CancelStays(s, id, l, dead);
    }
  }

  lemma CancelableIsLive(s: State, id: OrderId)
    requires Inv(s) && id in s.repo.orders && s.repo.orders[id].IsCancelable()
    ensures Live(s.repo.orders[id]) && s.repo.orders[id].id == id && LocksAgree(s.accounts, s.repo.orders)
  {
    assert OrderOk(id, s.repo.orders[id]);
    hide LocksAgree, Balanced, BooksAgree, Uncrossed, SaneShape;
  }

  lemma CancelTakes(s: State, o: Order, l: Accounts, dead: set<OrderId>)
    requires o.id in s.repo.orders && s.repo.orders[o.id] == o && Live(o)
    requires Replays(l, [OrderCanceled(o.id)], Unlock(s.accounts, o.account, o.id), dead)
    ensures StepReplays(s, Cancel(o.id), l, dead)
  {
    hide Replays, Unlock, RemoveFromBook;
  }

  lemma CancelStays(s: State, id: OrderId, l: Accounts, dead: set<OrderId>)
    requires Twins(l, s.accounts, dead) && !(id in s.repo.orders && s.repo.orders[id].IsCancelable())
    ensures StepReplays(s, Cancel(id), l, dead)
  {
    hide Twins, Unlock, RemoveFromBook, LockFunds, TrySettle;
    ReplayOne(l, CancelRejected(id));
  }

  lemma OwnerFound(s: State, l: Accounts, o: Order, dead: set<OrderId>)
    requires LocksAgree(s.accounts, s.repo.orders) && o.id in s.repo.orders && s.repo.orders[o.id] == o && Live(o)
    requires Twins(l, s.accounts, dead) && AccountsOk(l) && o.id !in dead
    ensures LockOwner(l, l.ids, o.id) == Some(o.account)
    ensures Twin(l.Get(o.account), s.accounts.Get(o.account), dead)
  {
    forall b ensures o.id in l.Get(b).locks <==> b == o.account {
      assert Twin(l.Get(b), s.accounts.Get(b), dead);
    }
    assert o.account in l.table;
  }

  lemma StepReplay(s: State, c: Command, l: Accounts, dead: set<OrderId>)
    requires Inv(s) && Positive(c) && Sane(c) && (c.Place? ==> c.placement.id !in s.repo.ids)
    requires Dormant(s, dead) && Twins(l, s.accounts, dead) && AccountsOk(l)
    ensures StepReplays(s, c, l, dead)
    ensures AccountsOk(Replay(l, NewEvents(s, c)).value)
  {
    match c {
      case Place(p) =>
        if LockFunds(s.accounts, p.account, p.id, p.symbol, p.side, p.qty, p.price).rejected == None {
          ReplayAccepted(s, p, l, dead);
        } else {
          ReplayRejected(s, p, l, dead);
        }
      case Cancel(id) => ReplayCancel(s, id, l, dead);
      case _ => ReplayFunds(s, c, l, dead);
    }
    ReplayKeepsIds(l, NewEvents(s, c));
  }

  // ---------- whole runs ----------

  lemma NoAccountsTwins()
    ensures Twins(NO_ACCOUNTS, INITIAL.accounts, {}) && AccountsOk(NO_ACCOUNTS)
  {
  }

  /**
   * Replay equivalence: replaying the log of any sane run from nothing never aborts, and gives every account
   * exactly its live cash, positions, cost basis and order locks.
   */
  lemma {:induction false} ReplayIsLive(cmds: seq<Command>)
    requires WellFormed(cmds) && SaneRun(cmds)
    ensures Exec(cmds).Done?
    ensures Replays(NO_ACCOUNTS, Exec(cmds).value.log, Exec(cmds).value.accounts, {})
    ensures AccountsOk(Replay(NO_ACCOUNTS, Exec(cmds).value.log).value)
  {
    RunsAgree(cmds);
    if cmds == [] { NoAccountsTwins(); }
    else {
      var init, c := cmds[..|cmds| - 1], cmds[|cmds| - 1];
      assert cmds == init + [c];
      NextCommand(init, c);
      RunsAgree(init);
      ReplayIsLive(init);
      var s := Exec(init).value;
      StepReplay(s, c, Replay(NO_ACCOUNTS, s.log).value, {});
      StepLog(s, c);
      ReplayAppend(NO_ACCOUNTS, s.log, NewEvents(s, c));
    }
  }
}

/** Replaying the log of order-against-market mode: right exactly as long as nothing is filled. */
module MarketReplay {
  import opened Domain
  import opened Ledger
  import opened Orders
  import opened Exchange
  import opened Agreement
  import opened LogShape
  import opened Projection
  import opened ReplayRuns
  import opened MarketMode
  import opened MarketRuns

  predicate NothingFilled(m: Venue) { forall id :: id in m.repo.orders ==> m.repo.orders[id].status != Status.Filled }

  // ---------- what each command appends ----------

  /** Trades and fills tell the replay nothing. */
  predicate OfAFill(e: Event) { e.TradeExecuted? || e.OrderFilled? }

  /** The log grew by these events. */
  predicate Grew(m: Venue, m': Venue, es: seq<Event>) { m'.log == m.log + es }

  lemma {:induction false} FillGrows(m: Venue, id: OrderId, q: Quote) returns (es: seq<Event>)
    requires MarketInv(m) && id in m.repo.orders && m.repo.orders[id].status == Routed
    ensures TryFill(m, id, q).Done? && Grew(m, TryFill(m, id, q).value, es) && forall e :: e in es ==> OfAFill(e)
    ensures !Fillable(m.repo.orders[id], q) ==> TryFill(m, id, q) == Done(m)
  {
    hide *;
    var o := m.repo.orders[id];
    InvParts(m, id);
    FillUnfolds(m, o, q);
    es := if Fillable(o, q) then [TradeExecuted(MarketTrade(o, q)), FillEvent(Closed(o), o.qty)] else [];
    assert m.log + [] == m.log;
    FillsAre(m, o, q, es);
  }

  lemma FillsAre(m: Venue, o: Order, q: Quote, es: seq<Event>)
    requires es == [TradeExecuted(MarketTrade(o, q)), FillEvent(Closed(o), o.qty)] || es == []
    ensures forall e :: e in es ==> OfAFill(e)
    ensures TryFill(m, o.id, q).Done? ==>
      (Grew(m, TryFill(m, o.id, q).value, es) <==> TryFill(m, o.id, q).value.log == m.log + es)
  {
  }

  lemma {:induction false} ScanGrows(m: Venue, ids: seq<OrderId>, sym: Symbol, q: Quote) returns (es: seq<Event>)
    requires MarketInv(m) && forall id :: id in ids ==> id in m.repo.orders
    ensures ScanOrders(m, ids, sym, q).Done? && Grew(m, ScanOrders(m, ids, sym, q).value, es) &&
      forall e :: e in es ==> OfAFill(e)
    decreases |ids|
  {
    hide MarketInv, TryFill, Fillable, OfAFill;
    if ids == [] {
      es := [];
      assert m.log + [] == m.log;
    } else {
      assert ids == [ids[0]] + ids[1..];
      var m1, first := ScanHead(m, ids[0], sym, q);
      var rest := ScanGrows(m1, ids[1..], sym, q);
      es := first + rest;
      assert m.log + first + rest == m.log + es;
    }
  }

  /** What a scan does with one order, and what it writes. */
  lemma {:induction false} ScanHead(m: Venue, id: OrderId, sym: Symbol, q: Quote) returns (m1: Venue, es: seq<Event>)
    requires MarketInv(m) && id in m.repo.orders
    ensures if Scanned(m.repo.orders[id], sym) then TryFill(m, id, q) == Done(m1) else m1 == m
    ensures MarketInv(m1) && m1.repo.orders.Keys == m.repo.orders.Keys && Grew(m, m1, es) &&
      forall e :: e in es ==> OfAFill(e)
  {
    hide MarketInv;
    m1 := ScanFirst(m, id, sym, q);
    es := [];
    assert m.log + [] == m.log;
    if Scanned(m.repo.orders[id], sym) {
      InvParts(m, id);
      hide MarketInv, TryFill, Fillable, OfAFill, AfterScan;
      es := FillGrows(m, id, q);
    }
  }

  /** A scan that finds nothing to fill changes nothing. */
  lemma {:induction false} ScanIdle(m: Venue, ids: seq<OrderId>, sym: Symbol, q: Quote)
    requires forall id ::
      id in ids && id in m.repo.orders && Scanned(m.repo.orders[id], sym) ==> !Fillable(m.repo.orders[id], q)
    ensures ScanOrders(m, ids, sym, q) == Done(m)
    decreases |ids|
  {
    if ids != [] {
      assert ids[0] in ids;
      hide Fillable;
      ScanIdle(m, ids[1..], sym, q);
    }
  }

  // ---------- a lock that stays ----------

  /** Events that leave an order's lock in the replayed account. */
  predicate LeavesLock(e: Event, id: OrderId) {
    !e.TradeSettlement? && !e.AccountDeleted? && !(e.OrderRejected? && e.id == id) && !(e.OrderCanceled? && e.id == id)
  }

  lemma {:induction false} LockStays(l: Accounts, e: Event, a: AccountId, id: OrderId)
    requires id in l.Get(a).locks && LeavesLock(e, id) && ReplayEvent(l, e).Done?
    ensures id in ReplayEvent(l, e).value.Get(a).locks
  {
  }

  lemma {:induction false} LockStaysThrough(l: Accounts, es: seq<Event>, a: AccountId, id: OrderId)
    requires id in l.Get(a).locks && Replay(l, es).Done? && forall e :: e in es ==> LeavesLock(e, id)
    ensures id in Replay(l, es).value.Get(a).locks
    decreases |es|
  {
    if es != [] {
      assert es[0] in es;
      LockStays(l, es[0], a, id);
      hide ReplayEvent;
      LockStaysThrough(ReplayEvent(l, es[0]).value, es[1..], a, id);
    }
  }

  // ---------- one command ----------

  /** The replayed accounts are the live ones, or a filled order still holds its lock there. */
  ghost predicate ReplayTells(m: Venue, r: Outcome<Accounts>) {
    if NothingFilled(m) then r.Done? && Twins(r.value, m.accounts, {}) && AccountsOk(r.value)
    else r.Done? ==> exists id, a :: HeldThough(m, r.value, id, a)
  }

  predicate HeldThough(m: Venue, l: Accounts, id: OrderId, a: AccountId) {
    id in m.repo.orders && m.repo.orders[id].status == Status.Filled && id in l.Get(a).locks
  }

  /** While nothing is filled the locks are those of the other mode. */
  lemma {:induction false} LocksAgreeHere(m: Venue)
    requires MarketInv(m) && NothingFilled(m)
    ensures LocksAgree(m.accounts, m.repo.orders)
  {
    hide Balanced, AccountsOk, Value;
    forall a, id | id in m.accounts.Get(a).locks
      ensures id in m.repo.orders && m.repo.orders[id].account == a &&
        LockFor(m.repo.orders[id], m.accounts.Get(a).locks[id])
    {
      assert MarketOrderOk(id, m.repo.orders[id]);
    }
    forall id | id in m.repo.orders && HoldsLock(m.repo.orders[id])
      ensures id in m.accounts.Get(m.repo.orders[id].account).locks {
      assert MarketOrderOk(id, m.repo.orders[id]);
    }
  }

  /** A command that fills nothing is replayed to the accounts it left. */
  ghost predicate QuietReplays(m: Venue, m': Venue, l: Accounts, es: seq<Event>) {
    Grew(m, m', es) && Replays(l, es, m'.accounts, {})
  }

  lemma {:induction false} TickReplays(m: Venue, sym: Symbol, q: Quote, l: Accounts) returns (es: seq<Event>)
    requires MarketInv(m) && NothingFilled(m) && Twins(l, m.accounts, {})
    ensures MarketStep(m, Tick(sym, q)).Done?
    ensures var m' := MarketStep(m, Tick(sym, q)).value;
      && Grew(m, m', es) && (forall e :: e in es ==> OfAFill(e))
      && if NothingFilled(m') then m'.accounts == m.accounts else exists id, a :: HeldThough(m', l, id, a)
  {
    hide Step;
    var m0 := m.(quotes := m.quotes[sym := q]);
    assert MarketInv(m0);
    es := ScanGrows(m0, m.repo.ids, sym, q);
    TickKeepsInv(m, sym, q);
    var m' := MarketStep(m, Tick(sym, q)).value;
    if NothingFilled(m') {
      forall id | id in m.repo.orders && Scanned(m.repo.orders[id], sym) ensures !Fillable(m.repo.orders[id], q) {
        InvParts(m, id);
        assert m'.repo.orders[id] == AfterScan(m.repo.orders[id], sym, q);
      }
      hide ScanOrders, Fillable;
      ScanIdle(m0, m.repo.ids, sym, q);
    } else {
      var id :| id in m'.repo.orders && m'.repo.orders[id].status == Status.Filled;
      var o := m.repo.orders[id];
      InvParts(m, id);
      hide ScanOrders, Fillable;
      assert o.status == Routed && id in m.accounts.Get(o.account).locks;
      assert Twin(l.Get(o.account), m.accounts.Get(o.account), {});
      assert HeldThough(m', l, id, o.account);
    }
  }

  lemma {:induction false} FundsReplay(m: Venue, c: Command, l: Accounts)
    requires Twins(l, m.accounts, {}) && Positive(c) && (c.CashIn? || c.CashOut? || c.SharesIn?)
    ensures MarketStep(m, User(c)).Done? && QuietReplays(m, MarketStep(m, User(c)).value, l, NewEvents(Core(m), c))
  {
    hide Twins, NewEvents, Replay, Positive;
    ReplayFunds(Core(m), c, l, {});
    StepLog(Core(m), c);
    hide Step;
  }

  lemma {:induction false} CancelReplays(m: Venue, id: OrderId, l: Accounts)
    requires MarketInv(m) && NothingFilled(m) && Twins(l, m.accounts, {}) && AccountsOk(l)
    ensures MarketStep(m, User(Cancel(id))).Done?
    ensures QuietReplays(m, MarketStep(m, User(Cancel(id))).value, l, NewEvents(Core(m), Cancel(id)))
  {
    MarketCancelKeepsInv(m, id);
    CancelGrows(m, id);
    LocksAgreeHere(m);
    hide Twins, MarketInv, MarketStep, NewEvents, Unlock, LocksAgree, ReplayEvent;
    if id in m.repo.orders {
      var o := m.repo.orders[id];
      InvParts(m, id);
      if o.status == Routed { ReplayRelease(Core(m), o, l, {}); } else { RefusalReplays(l, id); }
    }
  }

  lemma RefusalReplays(l: Accounts, id: OrderId)
    ensures Replay(l, [CancelRejected(id)]) == Done(l)
  {
    ReplayOne(l, CancelRejected(id));
  }

  lemma {:induction false} CancelGrows(m: Venue, id: OrderId)
    requires MarketInv(m) && MarketStep(m, User(Cancel(id))).Done?
    ensures var m', es := MarketStep(m, User(Cancel(id))).value, NewEvents(Core(m), Cancel(id));
      && Grew(m, m', es)
      && if id !in m.repo.orders then es == [] && m'.accounts == m.accounts
         else if m.repo.orders[id].status == Routed then
           es == [OrderCanceled(id)] && m'.accounts == Unlock(m.accounts, m.repo.orders[id].account, id)
         else es == [CancelRejected(id)] && m'.accounts == m.accounts
  {
    if id in m.repo.orders { InvParts(m, id); }
    hide MarketInv, MarketRepoOk, MarketLedgerOk, Unlock;
  }

  /** The events of a placement up to its routing. */
  function IntakeEvents(m: Venue, p: Placement): seq<Event> { [OrderPlaced(p)] + TakeIn(m.accounts, m.repo, p).events }

  lemma {:induction false} IntakeReplays(m: Venue, p: Placement, l: Accounts)
    requires MarketInv(m) && p.id !in m.repo.orders && Twins(l, m.accounts, {})
    ensures var m1, es := AfterMarketIntake(m, p), IntakeEvents(m, p);
      && Grew(m, m1, es) && Replay(l, es).Done? && Twins(Replay(l, es).value, m1.accounts, {})
    ensures var o := AfterMarketIntake(m, p).repo.orders[p.id];
      o.status == Routed ==> p.id in Replay(l, IntakeEvents(m, p)).value.Get(p.account).locks
  {
    hide Replay;
    UnknownUnlockedHere(m, p.id);
    hide MarketInv, LockFunds, Twins, ReplayEvent;
    var l1 := ReplayPlaced(Core(m), p, l, {});
    var lock := LockFunds(m.accounts, p.account, p.id, p.symbol, p.side, p.qty, p.price);
    LockOutcome(m.accounts, p);
    TwinsLocks(l1, lock.accounts, p.id);
    assert m.log + [OrderPlaced(p)] + TakeIn(m.accounts, m.repo, p).events == m.log + IntakeEvents(m, p);
    if lock.rejected.Some? {
      var e := OrderRejected(p.id, lock.rejected.value);
      assert IntakeEvents(m, p) == [OrderPlaced(p)] + [e];
      ReplayCons(l, OrderPlaced(p), [e]);
      ReplayOne(l1, e);
      NothingToGiveBack(l1, p.id);
    } else {
      var es := [OrderAccepted(p.id), OrderRouted(p.id, p.symbol)];
      assert IntakeEvents(m, p) == [OrderPlaced(p)] + es;
      ReplayCons(l, OrderPlaced(p), es);
      ReplayInformational(l1, es);
    }
  }

  lemma UnknownUnlockedHere(m: Venue, id: OrderId)
    requires MarketInv(m) && id !in m.repo.orders
    ensures forall a :: id !in m.accounts.Get(a).locks
  {
    hide Balanced;
  }

  lemma TwinsLocks(l: Accounts, m: Accounts, id: OrderId)
    requires Twins(l, m, {})
    ensures forall a :: id in l.Get(a).locks <==> id in m.Get(a).locks
  {
    forall a ensures id in l.Get(a).locks <==> id in m.Get(a).locks { assert Twin(l.Get(a), m.Get(a), {}); }
  }

  /** What a fill writes tells the replay nothing; the lock the fill uses up is still there in it. */
  lemma {:induction false} FillReplays(m: Venue, id: OrderId, q: Quote, l: Accounts) returns (es: seq<Event>)
    requires MarketInv(m) && NothingFilled(m) && id in m.repo.orders && m.repo.orders[id].status == Routed
    requires Twins(l, m.accounts, {}) && id in l.Get(m.repo.orders[id].account).locks
    ensures TryFill(m, id, q).Done? && Grew(m, TryFill(m, id, q).value, es) && Replay(l, es) == Done(l)
    ensures var m' := TryFill(m, id, q).value;
      if NothingFilled(m') then Twins(l, m'.accounts, {}) else HeldThough(m', l, id, m.repo.orders[id].account)
  {
    hide MarketInv, Fillable, TryFill, Twins, Replay;
    es := FillGrows(m, id, q);
    FillKeepsInv(m, id, q);
    assert forall e :: e in es ==> Informational(e);
    ReplayInformational(l, es);
    var m' := TryFill(m, id, q).value;
    if Fillable(m.repo.orders[id], q) { assert id in m'.repo.orders && m'.repo.orders[id].status == Status.Filled; }
  }

  lemma {:induction false} IntakeFillsNothing(m: Venue, p: Placement)
    requires MarketInv(m) && NothingFilled(m) && p.id !in m.repo.orders && Admissible(User(Place(p)))
    ensures var m1 := AfterMarketIntake(m, p);
      && MarketInv(m1) && NothingFilled(m1) && p.id in m1.repo.orders && m1.repo.orders[p.id].account == p.account
  {
    hide MarketInv, LockFunds;
    IntakeKeepsInv(m, p);
  }

  lemma {:induction false} PlaceReplays(m: Venue, p: Placement, l: Accounts) returns (es: seq<Event>)
    requires MarketInv(m) && NothingFilled(m) && Twins(l, m.accounts, {}) && p.id !in m.repo.orders &&
      Admissible(User(Place(p)))
    ensures MarketStep(m, User(Place(p))).Done?
    ensures var m' := MarketStep(m, User(Place(p))).value;
      && Grew(m, m', es) && Replay(l, es).Done?
      && if NothingFilled(m') then Twins(Replay(l, es).value, m'.accounts, {})
         else HeldThough(m', Replay(l, es).value, p.id, p.account)
  {
    var m1 := AfterMarketIntake(m, p);
    IntakeFillsNothing(m, p);
    IntakeReplays(m, p, l);
    PlaceUnfolds(m, p);
    es := IntakeEvents(m, p);
    hide *;
    if m1.repo.orders[p.id].status == Routed && p.symbol in m.quotes {
      var fill := FillReplays(m1, p.id, m.quotes[p.symbol], Replay(l, es).value);
      ReplayAppend(l, es, fill);
      es := es + fill;
      TwoSteps(m, m1, MarketStep(m, User(Place(p))).value, IntakeEvents(m, p), fill);
    }
  }

  lemma PlaceUnfolds(m: Venue, p: Placement)
    ensures var m1 := AfterMarketIntake(m, p);
      MarketStep(m, User(Place(p))) ==
        if m1.repo.orders[p.id].status == Routed && p.symbol in m.quotes then TryFill(m1, p.id, m.quotes[p.symbol])
        else Done(m1)
  {
    hide TryFill, AfterMarketIntake;
  }

  lemma TwoSteps(m: Venue, m1: Venue, m2: Venue, xs: seq<Event>, ys: seq<Event>)
    requires Grew(m, m1, xs) && Grew(m1, m2, ys)
    ensures Grew(m, m2, xs + ys)
  {
    assert m.log + xs + ys == m.log + (xs + ys);
  }

  // ---------- once something is filled ----------

  /** Filled orders are still filled, and the new events leave their locks alone. */
  ghost predicate FilledKeep(m: Venue, m': Venue, es: seq<Event>) {
    && Grew(m, m', es)
    && forall id :: id in m.repo.orders && m.repo.orders[id].status == Status.Filled ==>
         id in m'.repo.orders && m'.repo.orders[id].status == Status.Filled && forall e :: e in es ==> LeavesLock(e, id)
  }

  lemma {:induction false} PlaceLeaves(m: Venue, p: Placement) returns (es: seq<Event>)
    requires MarketInv(m) && p.id !in m.repo.orders && Admissible(User(Place(p)))
    ensures MarketStep(m, User(Place(p))).Done? && FilledKeep(m, MarketStep(m, User(Place(p))).value, es)
  {
    MarketPlaceKeepsInv(m, p);
    es := PlaceGrows(m, p);
    hide MarketInv, MarketStep, Admissible;
  }

  lemma {:induction false} PlaceGrows(m: Venue, p: Placement) returns (es: seq<Event>)
    requires MarketInv(m) && p.id !in m.repo.orders && Admissible(User(Place(p)))
    ensures MarketStep(m, User(Place(p))).Done? && Grew(m, MarketStep(m, User(Place(p))).value, es)
    ensures forall e, id :: e in es && id != p.id ==> LeavesLock(e, id)
  {
    hide MarketInv, Fillable, TryFill, Admissible, Step, ScanOrders, LockFunds, AfterMarketIntake, IntakeEvents;
    IntakeKeepsInv(m, p);
    IntakeLeaves(m, p);
    var m1 := AfterMarketIntake(m, p);
    es := IntakeEvents(m, p);
    if m1.repo.orders[p.id].status == Routed && p.symbol in m.quotes {
      var fill := FillGrows(m1, p.id, m.quotes[p.symbol]);
      es := es + fill;
      assert m.log + IntakeEvents(m, p) + fill == m.log + es;
    }
  }

  lemma IntakeLeaves(m: Venue, p: Placement)
    ensures Grew(m, AfterMarketIntake(m, p), IntakeEvents(m, p))
    ensures forall e, id :: e in IntakeEvents(m, p) && id != p.id ==> LeavesLock(e, id)
  {
    hide LockFunds;
    assert m.log + [OrderPlaced(p)] + TakeIn(m.accounts, m.repo, p).events == m.log + IntakeEvents(m, p);
  }

  lemma {:induction false} MarketGrows(m: Venue, c: MarketCommand) returns (es: seq<Event>)
    requires MarketInv(m) && Admissible(c) && (IsPlace(c) ==> PlacedBy(c) !in m.repo.orders)
    ensures MarketStep(m, c).Done? && FilledKeep(m, MarketStep(m, c).value, es)
  {
    hide MarketInv, MarketStep, Sane;
    match c
    case Fetch(sym, q) => es := FetchLeaves(m, sym, q);
    case Tick(sym, q) => es := TickLeaves(m, sym, q);
    case User(d) =>
      match d
      case Place(p) => es := PlaceLeaves(m, p);
      case Cancel(id) => es := CancelLeaves(m, id);
      case _ => es := FundsLeave(m, d);
  }

  lemma FetchLeaves(m: Venue, sym: Symbol, q: Quote) returns (es: seq<Event>)
    ensures MarketStep(m, Fetch(sym, q)).Done? && FilledKeep(m, MarketStep(m, Fetch(sym, q)).value, es)
  {
    es := [];
    assert m.log + [] == m.log;
  }

  lemma {:induction false} TickLeaves(m: Venue, sym: Symbol, q: Quote) returns (es: seq<Event>)
    requires MarketInv(m)
    ensures MarketStep(m, Tick(sym, q)).Done? && FilledKeep(m, MarketStep(m, Tick(sym, q)).value, es)
  {
    hide Fillable, MarketInv, ScanOrders, AfterScan, FilledKeep, OfAFill;
    var m0 := m.(quotes := m.quotes[sym := q]);
    QuoteKeepsInv(m, sym, q);
    InvIds(m);
    es := ScanGrows(m0, m.repo.ids, sym, q);
    TickKeepsInv(m, sym, q);
    FilledByScan(m, sym, q, es);
  }

  lemma QuoteKeepsInv(m: Venue, sym: Symbol, q: Quote)
    requires MarketInv(m)
    ensures MarketInv(m.(quotes := m.quotes[sym := q]))
  {
    hide MarketRepoOk, MarketLedgerOk;
  }

  lemma InvIds(m: Venue)
    requires MarketInv(m)
    ensures forall id :: id in m.repo.ids <==> id in m.repo.orders
  {
  }

  lemma FilledByScan(m: Venue, sym: Symbol, q: Quote, es: seq<Event>)
    requires var r := ScanOrders(m.(quotes := m.quotes[sym := q]), m.repo.ids, sym, q);
      && r.Done? && Grew(m.(quotes := m.quotes[sym := q]), r.value, es)
      && r.value.repo.orders == map id | id in m.repo.orders :: AfterScan(m.repo.orders[id], sym, q)
    requires forall e :: e in es ==> OfAFill(e)
    ensures MarketStep(m, Tick(sym, q)).Done? && FilledKeep(m, MarketStep(m, Tick(sym, q)).value, es)
  {
    hide ScanOrders, Fillable;
  }

  lemma {:induction false} CancelLeaves(m: Venue, id: OrderId) returns (es: seq<Event>)
    requires MarketInv(m)
    ensures MarketStep(m, User(Cancel(id))).Done? && FilledKeep(m, MarketStep(m, User(Cancel(id))).value, es)
  {
    hide MarketInv, Unlock, Step, NewEvents;
    MarketCancelKeepsInv(m, id);
    StepLog(Core(m), Cancel(id));
    es := NewEvents(Core(m), Cancel(id));
    CancelEvents(m, id);
  }

  lemma CancelEvents(m: Venue, id: OrderId)
    ensures forall e, x ::
      e in NewEvents(Core(m), Cancel(id)) && x in m.repo.orders && m.repo.orders[x].status == Status.Filled ==>
      LeavesLock(e, x)
  {
  }

  lemma {:induction false} FundsLeave(m: Venue, c: Command) returns (es: seq<Event>)
    requires MarketInv(m) && Positive(c) && (c.CashIn? || c.CashOut? || c.SharesIn?)
    ensures MarketStep(m, User(c)).Done? && FilledKeep(m, MarketStep(m, User(c)).value, es)
  {
    hide Step, NewEvents, MarketInv, MarketPlace;
    MarketFundsKeepInv(m, c);
    StepLog(Core(m), c);
    es := NewEvents(Core(m), c);
    FundsSay(Core(m), c);
  }

  lemma FundsSay(s: State, c: Command)
    requires c.CashIn? || c.CashOut? || c.SharesIn?
    ensures forall e :: e in NewEvents(s, c) ==> e.AccountUpdated?
  {
    hide RoutingEvents;
  }

  lemma {:induction false} StillRaised(l: Accounts, xs: seq<Event>, ys: seq<Event>)
    requires Replay(l, xs).Raised?
    ensures Replay(l, xs + ys).Raised?
    decreases |xs|
  {
    assert (xs + ys)[1..] == xs[1..] + ys;
    if ReplayEvent(l, xs[0]).Done? {
      hide ReplayEvent;
      StillRaised(ReplayEvent(l, xs[0]).value, xs[1..], ys);
    }
  }

  lemma {:induction false} FilledTells(m: Venue, c: MarketCommand)
    requires MarketInv(m) && Admissible(c) && (IsPlace(c) ==> PlacedBy(c) !in m.repo.orders)
    requires !NothingFilled(m) && ReplayTells(m, Replay(NO_ACCOUNTS, m.log))
    ensures MarketStep(m, c).Done? &&
      ReplayTells(MarketStep(m, c).value, Replay(NO_ACCOUNTS, MarketStep(m, c).value.log))
  {
    hide MarketStep;
    var es := MarketGrows(m, c);
    var m' := MarketStep(m, c).value;
    hide MarketInv, MarketStep, Replay, Admissible;
    var some :| some in m.repo.orders && m.repo.orders[some].status == Status.Filled;
    assert some in m'.repo.orders && m'.repo.orders[some].status == Status.Filled;
    if Replay(NO_ACCOUNTS, m.log).Raised? {
      StillRaised(NO_ACCOUNTS, m.log, es);
    } else {
      ReplayAppend(NO_ACCOUNTS, m.log, es);
      var l := Replay(NO_ACCOUNTS, m.log).value;
      var id, a :| HeldThough(m, l, id, a);
      if Replay(l, es).Done? {
        LockStaysThrough(l, es, a, id);
        assert HeldThough(m', Replay(l, es).value, id, a);
      }
    }
  }

  /** The replay told of m goes on quietly to m'. */
  lemma QuietGoesOn(m: Venue, m': Venue, es: seq<Event>)
    requires Replay(NO_ACCOUNTS, m.log).Done? && AccountsOk(Replay(NO_ACCOUNTS, m.log).value) && Grew(m, m', es)
    requires Replay(Replay(NO_ACCOUNTS, m.log).value, es).Done?
    requires var l := Replay(Replay(NO_ACCOUNTS, m.log).value, es).value;
      if NothingFilled(m') then Twins(l, m'.accounts, {}) else exists id, a :: HeldThough(m', l, id, a)
    ensures ReplayTells(m', Replay(NO_ACCOUNTS, m'.log))
  {
    ReplayAppend(NO_ACCOUNTS, m.log, es);
    ReplayKeepsIds(Replay(NO_ACCOUNTS, m.log).value, es);
    hide Replay, NothingFilled, Twins, HeldThough, AccountsOk;
  }

  lemma TellsQuietly(m: Venue)
    requires NothingFilled(m) && ReplayTells(m, Replay(NO_ACCOUNTS, m.log))
    ensures var r := Replay(NO_ACCOUNTS, m.log); r.Done? && Twins(r.value, m.accounts, {}) && AccountsOk(r.value)
  {
  }

  lemma {:induction false} QuietTells(m: Venue, c: MarketCommand)
    requires MarketInv(m) && Admissible(c) && (IsPlace(c) ==> PlacedBy(c) !in m.repo.orders)
    requires NothingFilled(m) && ReplayTells(m, Replay(NO_ACCOUNTS, m.log))
    ensures MarketStep(m, c).Done? &&
      ReplayTells(MarketStep(m, c).value, Replay(NO_ACCOUNTS, MarketStep(m, c).value.log))
  {
    hide MarketInv, MarketStep, Replay, ReplayTells, NothingFilled, Twins, AccountsOk, Step;
    TellsQuietly(m);
    var l := Replay(NO_ACCOUNTS, m.log).value;
    match c
    case Fetch(sym, q) => QuietFetch(m, sym, q);
    case Tick(sym, q) =>
      var es := TickReplays(m, sym, q, l);
      QuietScan(l, es);
      QuietGoesOn(m, MarketStep(m, c).value, es);
    case User(Place(p)) =>
      var es := PlaceReplays(m, p, l);
      QuietGoesOn(m, MarketStep(m, c).value, es);
    case User(Cancel(id)) =>
      CancelReplays(m, id, l);
      StaysUnfilled(m, Cancel(id));
      QuietGoesOn(m, MarketStep(m, c).value, NewEvents(Core(m), Cancel(id)));
    case User(d) =>
      FundsReplay(m, d, l);
      StaysUnfilled(m, d);
      QuietGoesOn(m, MarketStep(m, c).value, NewEvents(Core(m), d));
  }

  lemma QuietFetch(m: Venue, sym: Symbol, q: Quote)
    requires ReplayTells(m, Replay(NO_ACCOUNTS, m.log)) && NothingFilled(m)
    ensures MarketStep(m, Fetch(sym, q)).Done?
    ensures var m' := MarketStep(m, Fetch(sym, q)).value; ReplayTells(m', Replay(NO_ACCOUNTS, m'.log))
  {
    hide Replay, Twins, AccountsOk;
  }

  lemma QuietScan(l: Accounts, es: seq<Event>)
    requires forall e :: e in es ==> OfAFill(e)
    ensures Replay(l, es) == Done(l)
  {
    assert forall e :: e in es ==> Informational(e);
    hide Replay;
    ReplayInformational(l, es);
  }

  /** Neither a cancellation nor cash or shares fill anything. */
  lemma {:induction false} StaysUnfilled(m: Venue, c: Command)
    requires MarketInv(m) && NothingFilled(m) && !c.Place? && MarketStep(m, User(c)).Done?
    ensures NothingFilled(MarketStep(m, User(c)).value)
  {
    hide MarketInv, Unlock, Deposit, Withdraw, Seed, RemoveFromBook;
  }

  lemma {:induction false} MarketReplayTells(cs: seq<MarketCommand>)
    requires MarketWellFormed(cs)
    ensures MarketExec(cs).Done? && ReplayTells(MarketExec(cs).value, Replay(NO_ACCOUNTS, MarketExec(cs).value.log))
  {
    MarketRunsAgree(cs);
    if cs == [] {
      NoAccountsTwins();
    } else {
      var init, c := cs[..|cs| - 1], cs[|cs| - 1];
      assert forall i :: 0 <= i < |init| ==> init[i] == cs[i];
      MarketRunsAgree(init);
      MarketReplayTells(init);
      var m := MarketExec(init).value;
      FreshNext(cs, m.repo.orders.Keys);
      hide MarketInv, MarketStep, ReplayTells, Admissible, NothingFilled;
      if NothingFilled(m) { QuietTells(m, c); } else { FilledTells(m, c); }
    }
  }

  /**
   * Exactly when a log of this mode can be replayed: the replay gives every account its live cash, positions, cost
   * basis and locks if and only if no order was ever filled, because a fill against the market writes no settlement.
   */
  lemma {:induction false} MarketReplayExactly(cs: seq<MarketCommand>)
    requires MarketWellFormed(cs)
    ensures MarketExec(cs).Done?
    ensures var m := MarketExec(cs).value; Replays(NO_ACCOUNTS, m.log, m.accounts, {}) <==> NothingFilled(m)
  {
    MarketReplayTells(cs);
    MarketRunsAgree(cs);
    var m := MarketExec(cs).value;
    hide MarketExec, Replay, MarketInv;
    if !NothingFilled(m) && Replay(NO_ACCOUNTS, m.log).Done? {
      var l := Replay(NO_ACCOUNTS, m.log).value;
      var id, a :| HeldThough(m, l, id, a);
      HeldNowhere(m, l, id, a);
    }
  }

  /** A live account holds no lock of a filled order. */
  lemma HeldNowhere(m: Venue, l: Accounts, id: OrderId, a: AccountId)
    requires MarketInv(m) && HeldThough(m, l, id, a)
    ensures !Twins(l, m.accounts, {})
  {
    hide Balanced, AccountsOk;
    assert id !in m.accounts.Get(a).locks;
    assert !Twin(l.Get(a), m.accounts.Get(a), {});
  }
}

/** The loops of a cold start: accounts, order repository and order books, each rebuilt from the log in place. */
module ColdStarts {
  import opened Domain
  import opened Matching
  import opened Ledger
  import opened Orders
  import opened Exchange
  import opened Agreement
  import opened Projection
  import opened ReplayRuns
  import opened Rebuild
  import opened BookRebuild
  import opened AccountServices
  import opened OrderRecords
  import opened Matchers

  /** The accounts, rebuilt from events alone. */
  class AccountProjection {
    const service: AccountService

    constructor (service: AccountService)
      ensures this.service == service
    {
      this.service := service;
    }

    method OnAccountUpdated(a: AccountId, cash: real, sym: Symbol, qty: real) returns (error: Option<Error>)
      requires service.Valid()
      modifies service.Repr
      ensures service.Valid() && fresh(service.Repr - old(service.Repr))
      ensures error.None? ==> ReplayUpdate(old(service.View()), a, cash, sym, qty) == Done(service.View())
      ensures error.Some? ==>
        && ReplayUpdate(old(service.View()), a, cash, sym, qty) == Raised(error.value)
        && service.View() == old(service.View()).Put(a, old(service.View()).Get(a))
    {
      hide Deposit, Withdraw, Seed, AccountService.View, AccountService.Valid;
      var acct := service.GetOrCreate(a);
      error := None;
      if cash > 0.0 {
        service.DepositTo(a, cash);
      } else if cash < 0.0 {
        error := service.WithdrawFrom(a, -cash);
        if error.Some? {
          return;
        }
      }
      if sym != "" && qty != 0.0 {
        service.SeedShares(a, sym, qty);
      }
    }

    method OnOrderPlaced(p: Placement)
      requires service.Valid()
      modifies service.Repr
      ensures service.Valid() && fresh(service.Repr - old(service.Repr))
      ensures Done(service.View()) == ReplayEvent(old(service.View()), OrderPlaced(p))
    {
      hide Ledger.LockFunds, AccountService.View, AccountService.Valid;
      var acct := service.GetOrCreate(p.account);
      var rejected := service.LockFunds(p.account, p.id, p.symbol, p.side, p.qty, p.price);
    }

    /** A rejection or a cancellation: go through the accounts until one holds a lock for the order. */
    method ReleaseOrder(id: OrderId)
      requires service.Valid() && AccountsOk(service.View())
      modifies service.Repr
      ensures service.Valid() && fresh(service.Repr - old(service.Repr))
      ensures service.View() == ReleaseOwned(old(service.View()), id)
    {
      hide Unlock, AccountService.View;
      var owner := FindAccountForOrder(id);
      if owner.Some? {
        service.UnlockFunds(owner.value, id);
      }
    }

    method FindAccountForOrder(id: OrderId) returns (owner: Option<AccountId>)
      requires service.Valid() && AccountsOk(service.View())
      ensures owner == LockOwner(service.View(), service.View().ids, id)
    {
      hide AccountService.View, AccountService.Valid, LockOwner;
      var accounts := service.ListIds();
      for i := 0 to |accounts|
        invariant LockOwner(service.View(), accounts, id) == LockOwner(service.View(), accounts[i..], id)
      {
        assert accounts[i..][1..] == accounts[i + 1..] && accounts[i] in service.View().table;
        LockOwnerNext(service.View(), accounts[i..], id);
        var held := service.HoldsLock(accounts[i], id);
        if held {
          return Some(accounts[i]);
        }
      }
      NoLockOwner(service.View(), id);
      assert accounts[|accounts|..] == [];
      return None;
    }

    method OnTradeSettlement(b: AccountId, s: AccountId, buyId: OrderId, sellId: OrderId, sym: Symbol, price: real,
                             qty: real)
      returns (error: Option<Error>)
      requires service.Valid()
      modifies service.Repr
      ensures service.Valid() && fresh(service.Repr - old(service.Repr))
      ensures var r := ReplayEvent(old(service.View()), TradeSettlement(b, s, buyId, sellId, sym, price, qty));
        r == if error.None? then Done(service.View()) else Raised(error.value)
      ensures error.Some? ==> service.View() == Served(old(service.View()), b, s, sym, price, qty)
    {
      hide *;
      ServedOnce(service.View(), b, s, sym, price, qty);
      SettlementReplays(service.View(), b, s, buyId, sellId, sym, price, qty);
      var buyer := service.GetOrCreate(b);
      var seller := service.GetOrCreate(s);
      error := service.SettleTrade(b, s, buyId, sellId, sym, price, qty);
    }

    method Apply(e: Event) returns (error: Option<Error>)
      requires service.Valid() && AccountsOk(service.View())
      modifies service.Repr
      ensures service.Valid() && fresh(service.Repr - old(service.Repr))
      ensures error.None? ==> ReplayEvent(old(service.View()), e) == Done(service.View())
      ensures error.Some? ==>
        ReplayEvent(old(service.View()), e) == Raised(error.value) && service.View() == Refused(old(service.View()), e)
    {
      hide AccountService.View, AccountService.Valid, AccountsOk, ReplayUpdate, ReleaseOwned;
      error := None;
      match e
      case AccountUpdated(a, cash, sym, qty) => error := OnAccountUpdated(a, cash, sym, qty);
      case AccountDeleted(a) => var existed := service.DeleteAccount(a);
      case OrderPlaced(p) => OnOrderPlaced(p);
      case OrderRejected(id, _) => ReleaseOrder(id);
      case OrderCanceled(id) => ReleaseOrder(id);
      case TradeSettlement(b, s, buyId, sellId, sym, price, qty) =>
        error := OnTradeSettlement(b, s, buyId, sellId, sym, price, qty);
      case _ =>
    }

    method Replay(events: seq<Event>) returns (error: Option<Error>)
      requires service.Valid() && AccountsOk(service.View())
      modifies service.Repr
      ensures service.Valid() && fresh(service.Repr - old(service.Repr))
      ensures error.None? ==> Projection.Replay(old(service.View()), events) == Done(service.View())
      ensures error.Some? ==>
        && Projection.Replay(old(service.View()), events) == Raised(error.value)
        && ReplayStopped(old(service.View()), events, service.View())
    {
      hide AccountService.View, AccountService.Valid, AccountsOk, ReplayEvent;
      for i := 0 to |events|
        invariant service.Valid() && fresh(service.Repr - old(service.Repr)) && AccountsOk(service.View())
        invariant Projection.Replay(old(service.View()), events) == Projection.Replay(service.View(), events[i..])
        invariant Projection.Replay(old(service.View()), events[..i]) == Done(service.View())
      {
        OneMoreReplayed(old(service.View()), events, i);
        ghost var l := service.View();
        error := Apply(events[i]);
        assert events[i..][0] == events[i] && events[i..][1..] == events[i + 1..];
        if error.Some? {
          return;
        }
        ReplayEventKeepsIds(l, events[i]);
      }
      error := None;
    }
  }

  // ---------- what a replay that raises leaves behind ----------

  /** An event that raises: a withdrawal only made sure of the account, a settlement was interrupted. */
  function Refused(l: Accounts, e: Event): Accounts {
    match e
    case AccountUpdated(a, _, _, _) => l.Put(a, l.Get(a))
    case TradeSettlement(b, s, _, _, sym, price, qty) => Served(l, b, s, sym, price, qty)
    case _ => l
  }

  lemma LockOwnerNext(l: Accounts, ids: seq<AccountId>, id: OrderId)
    requires ids != []
    ensures LockOwner(l, ids, id) == if id in l.Get(ids[0]).locks then Some(ids[0]) else LockOwner(l, ids[1..], id)
  {
  }

  lemma NoLockOwner(l: Accounts, id: OrderId)
    ensures LockOwner(l, [], id) == None
  {
  }

  lemma SettlementReplays(l: Accounts, b: AccountId, s: AccountId, buyId: OrderId, sellId: OrderId, sym: Symbol,
                          price: real, qty: real)
    ensures var l1 := l.Put(b, l.Get(b));
      var l2 := l1.Put(s, l1.Get(s));
      ReplayEvent(l, TradeSettlement(b, s, buyId, sellId, sym, price, qty)) ==
        if Settleable(l2, b, s, sym, qty) then Done(Settle(l2, b, s, buyId, sellId, sym, price, qty))
        else Raised(DivisionByZero)
  {
    hide Settle, Settleable;
  }

  ghost predicate ReplayStopped(l: Accounts, es: seq<Event>, l': Accounts) {
    exists k, m :: 0 <= k < |es| && Projection.Replay(l, es[..k]) == Done(m) && l' == Refused(m, es[k])
  }

  lemma {:induction false} OneMoreReplayed(l: Accounts, es: seq<Event>, k: nat)
    requires k < |es| && Projection.Replay(l, es[..k]).Done?
    ensures Projection.Replay(l, es[..k + 1]) == ReplayEvent(Projection.Replay(l, es[..k]).value, es[k])
  {
    assert es[..k + 1] == es[..k] + [es[k]];
    hide ReplayEvent;
    ReplayAppend(l, es[..k], [es[k]]);
    assert [es[k]][1..] == [];
  }

  // ---------- snapshots ----------

  /** Read a snapshot into the accounts of a service. */
  method RestoreSnapshot(service: AccountService, saved: seq<SavedAccount>)
    requires service.Valid()
    modifies service.Repr
    ensures service.Valid() && fresh(service.Repr - old(service.Repr))
    ensures service.View() == ReadInto(old(service.View()), saved)
  {
    hide TakeOver, AccountService.View, AccountService.Valid;
    for i := 0 to |saved|
      invariant service.Valid() && fresh(service.Repr - old(service.Repr))
      invariant service.View() == ReadInto(old(service.View()), saved[..i])
    {
      assert saved[..i + 1][..i] == saved[..i];
      service.LoadAccount(saved[i]);
    }
    assert saved[..|saved|] == saved;
  }

  // ---------- the order repository ----------

  /** Give an order a status, whatever it was; an unknown id is skipped and counted. */
  method ForceStatus(repo: OrderRepository, id: OrderId, status: Status, skipped: nat) returns (skipped': nat)
    requires repo.Valid()
    modifies repo.Repr
    ensures repo.Valid() && repo.Repr == old(repo.Repr)
    ensures Restoring(repo.View(), skipped') == SetStatus(Restoring(old(repo.View()), skipped), id, status)
  {
    if id !in repo.orders {
      return skipped + 1;
    }
    var order := repo.orders[id];
    order.status := status;
    repo.OneOrderMoved(id);
    return skipped;
  }

  method ForceFill(repo: OrderRepository, id: OrderId, cumulative: real, status: Status, skipped: nat)
    returns (skipped': nat)
    requires repo.Valid()
    modifies repo.Repr
    ensures repo.Valid() && repo.Repr == old(repo.Repr)
    ensures forall qty ::
      Restoring(repo.View(), skipped')
        == RestoreOrder(Restoring(old(repo.View()), skipped), OrderFilled(id, qty, cumulative, status))
  {
    if id !in repo.orders {
      return skipped + 1;
    }
    var order := repo.orders[id];
    order.filledQty := cumulative;
    order.status := status;
    repo.OneOrderMoved(id);
    return skipped;
  }

  method RestoreEvent(repo: OrderRepository, e: Event, skipped: nat) returns (skipped': nat)
    requires repo.Valid()
    modifies repo.Repr
    ensures repo.Valid() && fresh(repo.Repr - old(repo.Repr))
    ensures Restoring(repo.View(), skipped') == RestoreOrder(Restoring(old(repo.View()), skipped), e)
  {
    hide OrderRepository.View, OrderRepository.Valid;
    skipped' := skipped;
    match e
    case OrderPlaced(p) =>
      var order := new OrderRecord(p);
      repo.Add(order);
    case OrderAccepted(id) => skipped' := ForceStatus(repo, id, Accepted, skipped);
    case OrderRejected(id, _) => skipped' := ForceStatus(repo, id, Rejected, skipped);
    case OrderRouted(id, _) => skipped' := ForceStatus(repo, id, Routed, skipped);
    case OrderCanceled(id) => skipped' := ForceStatus(repo, id, Canceled, skipped);
    case OrderFilled(id, _, cumulative, status) => skipped' := ForceFill(repo, id, cumulative, status, skipped);
    case _ =>
  }

  method RestoreRepository(repo: OrderRepository, events: seq<Event>) returns (skipped: nat)
    requires repo.Valid()
    modifies repo.Repr
    ensures repo.Valid() && fresh(repo.Repr - old(repo.Repr))
    ensures Restoring(repo.View(), skipped) == RestoreOrders(Restoring(old(repo.View()), 0), events)
  {
    hide OrderRepository.View, OrderRepository.Valid, RestoreOrder;
    skipped := 0;
    for i := 0 to |events|
      invariant repo.Valid() && fresh(repo.Repr - old(repo.Repr))
      invariant RestoreOrders(Restoring(old(repo.View()), 0), events)
        == RestoreOrders(Restoring(repo.View(), skipped), events[i..])
    {
      assert events[i..][0] == events[i] && events[i..][1..] == events[i + 1..];
      skipped := RestoreEvent(repo, events[i], skipped);
    }
  }

  // ---------- the order books ----------

  /** One pass over the log: who placed what, who canceled, how much each id traded. */
  method ScanLog(events: seq<Event>) returns (f: Findings)
    ensures f == Scan(NO_FINDINGS, events)
  {
    var ids: seq<OrderId>, placed: map<OrderId, Placement> := [], map[];
    var canceled: set<OrderId>, traded: map<OrderId, real> := {}, map[];
    for i := 0 to |events|
      invariant Scan(NO_FINDINGS, events) == Scan(Findings(ids, placed, canceled, traded), events[i..])
    {
      assert events[i..][0] == events[i] && events[i..][1..] == events[i + 1..];
      match events[i]
      case OrderPlaced(p) =>
        ids := if p.id in placed then ids else ids + [p.id];
        placed := placed[p.id := p];
      case OrderCanceled(id) => canceled := canceled + {id};
      case TradeExecuted(t) =>
        traded := traded[t.buyId := (if t.buyId in traded then traded[t.buyId] else 0.0) + t.qty];
        traded := traded[t.sellId := (if t.sellId in traded then traded[t.sellId] else 0.0) + t.qty];
      case _ =>
    }
    f := Findings(ids, placed, canceled, traded);
  }

  /** The ids that are put back on a book. */
  function PutBackIds(f: Findings, ids: seq<OrderId>): set<OrderId> {
    set id | id in ids && id in f.placed && PutBack(f, id)
  }

  lemma PutBackNext(base: map<Symbol, Book>, f: Findings, i: nat)
    requires i < |f.ids|
    ensures var id := f.ids[i];
      if id in f.placed && PutBack(f, id) then
        && RestoreBooks(base, f, f.ids[..i + 1])
            == ReplayOrder(RestoreBooks(base, f, f.ids[..i]), f.placed[id].symbol, f.placed[id].side,
              RestoredEntry(f, id))
        && PutBackIds(f, f.ids[..i + 1]) == PutBackIds(f, f.ids[..i]) + {id}
      else
        && RestoreBooks(base, f, f.ids[..i + 1]) == RestoreBooks(base, f, f.ids[..i])
        && PutBackIds(f, f.ids[..i + 1]) == PutBackIds(f, f.ids[..i])
  {
    hide ReplayOrder, PutBack;
    assert f.ids[..i + 1] == f.ids[..i] + [f.ids[i]] && f.ids[..i + 1][..i] == f.ids[..i];
  }

  /** Put back what is neither canceled nor used up, in order of placement and without matching. */
  method RebuildOrderBook(matcher: Matcher, events: seq<Event>)
    requires matcher.Valid()
    modifies matcher.Repr
    ensures matcher.Valid() && fresh(matcher.Repr - old(matcher.Repr)) && matcher.pending == old(matcher.pending)
    ensures var f := Scan(NO_FINDINGS, events);
      matcher.View() == RestoreBooks(old(matcher.View()), f, f.ids) &&
        matcher.seen == old(matcher.seen) + PutBackIds(f, f.ids)
  {
    hide Matcher.View, Matcher.Valid, ReplayOrder;
    ghost var base := matcher.View();
    var f := ScanLog(events);
    for i := 0 to |f.ids|
      invariant matcher.Valid() && fresh(matcher.Repr - old(matcher.Repr)) && matcher.pending == old(matcher.pending)
      invariant matcher.View() == RestoreBooks(base, f, f.ids[..i])
      invariant matcher.seen == old(matcher.seen) + PutBackIds(f, f.ids[..i])
    {
      PutBackNext(base, f, i);
      RestoreOne(matcher, f, f.ids[i]);
    }
    assert f.ids[..|f.ids|] == f.ids;
  }

  method RestoreOne(matcher: Matcher, f: Findings, id: OrderId)
    requires matcher.Valid()
    modifies matcher.Repr
    ensures matcher.Valid() && fresh(matcher.Repr - old(matcher.Repr)) && matcher.pending == old(matcher.pending)
    ensures if id in f.placed && PutBack(f, id) then
        && matcher.View()
          == ReplayOrder(old(matcher.View()), f.placed[id].symbol, f.placed[id].side, RestoredEntry(f, id))
        && matcher.seen == old(matcher.seen) + {id}
      else
        matcher.View() == old(matcher.View()) && matcher.seen == old(matcher.seen)
  {
    hide Matcher.View, Matcher.Valid, ReplayOrder;
    if id !in f.placed || id in f.canceled {
      return;
    }
    var p := f.placed[id];
    var remaining := p.qty - f.Traded(id);
    if remaining <= 0.0 {
      return;
    }
    var price := p.price;
    if p.otype == Market {
      price := Some(if p.side == Buy then 999999999.0 else 0.0);
    }
    if price.None? {
      return;
    }
    matcher.Restore(id, p.account, p.symbol, p.side, price.value, remaining, p.at);
  }
}

/**
 * What replaying a log comes to, for any log: account by account what its events say, nothing left of a deleted
 * account, and no influence of one account's events on another.
 */
module ReplayLaws {
  import opened Domain
  import opened Ledger
  import opened Orders
  import opened Exchange
  import opened Agreement
  import opened Conservation
  import opened Projection
  import opened ReplayRuns

  // ---------- one event, one account ----------

  /** What an event makes of an account, which may be the one that holds the lock of its order. */
  function Effect(x: Account, e: Event, a: AccountId, holds: bool): Account {
    match e
    case AccountUpdated(b, cash, sym, qty) => if a == b then Updated(x, cash, sym, qty) else x
    case AccountDeleted(b) => if a == b then NEW_ACCOUNT else x
    case OrderPlaced(p) =>
      if a == p.account then LockIn(x, p.id, p.symbol, p.side, p.qty, p.price).account else x
    case OrderRejected(id, _) => if holds then Release(x, id) else x
    case OrderCanceled(id) => if holds then Release(x, id) else x
    case TradeSettlement(b, s, bid, sid, sym, price, qty) =>
      var y := if a == b then BuyLeg(x, bid, sym, price, qty) else x;
      if a == s then SellLeg(y, sid, sym, price, qty) else y
    case _ => x
  }

  function Updated(x: Account, cash: real, sym: Symbol, qty: real): Account {
    var y := x.(cashAvail := x.cashAvail + cash);
    if sym != "" && qty != 0.0 then y.SetPos(sym, y.Pos(sym).(avail := y.Pos(sym).avail + qty)) else y
  }

  predicate Holds(l: Accounts, e: Event, a: AccountId) {
    (e.OrderRejected? || e.OrderCanceled?) && LockOwner(l, l.ids, e.id) == Some(a)
  }

  lemma EffectIs(l: Accounts, e: Event, a: AccountId)
    requires ReplayEvent(l, e).Done?
    ensures ReplayEvent(l, e).value.Get(a) == Effect(l.Get(a), e, a, Holds(l, e, a))
  {
    hide BuyLeg, SellLeg, Release, LockIn, Settleable, LockOwner;
    match e
    case TradeSettlement(b, s, bid, sid, sym, price, qty) => SettlementEffect(l, e, a);
    case _ =>
  }

  lemma SettlementEffect(l: Accounts, e: Event, a: AccountId)
    requires e.TradeSettlement? && ReplayEvent(l, e).Done?
    ensures ReplayEvent(l, e).value.Get(a) == Effect(l.Get(a), e, a, false)
  {
    hide BuyLeg, SellLeg, Settleable;
  }

  // ---------- what an account owns ----------

  /** What an account owns of an asset once an event has happened to it, told from what it owned before. */
  function Owned(asset: Asset, before: real, e: Event, a: AccountId): real {
    match e
    case AccountUpdated(b, cash, sym, qty) =>
      if a != b then before
      else before + (match asset case Cash => cash case Shares(y) => if y == sym && sym != "" then qty else 0.0)
    case AccountDeleted(b) => if a == b then 0.0 else before
    case TradeSettlement(b, s, _, _, sym, price, qty) =>
      var paid := match asset case Cash => price * qty case Shares(y) => if y == sym then -qty else 0.0;
      before - (if a == b then paid else 0.0) + (if a == s then paid else 0.0)
    case _ => before
  }

  /** What the events of a log leave an account with. */
  function OwnedAfter(asset: Asset, before: real, es: seq<Event>, a: AccountId): real {
    if es == [] then before else Owned(asset, OwnedAfter(asset, before, es[..|es| - 1], a), es[|es| - 1], a)
  }

  lemma UpdatedWorth(asset: Asset, x: Account, cash: real, sym: Symbol, qty: real)
    ensures Worth(asset, Updated(x, cash, sym, qty)) ==
      Worth(asset, x) + (match asset case Cash => cash case Shares(y) => if y == sym && sym != "" then qty else 0.0)
  {
  }

  lemma EffectWorth(asset: Asset, x: Account, e: Event, a: AccountId, holds: bool)
    ensures Worth(asset, Effect(x, e, a, holds)) == Owned(asset, Worth(asset, x), e, a)
  {
    hide Worth, Updated, LockIn, Release, BuyLeg, SellLeg;
    match e
    case AccountUpdated(b, cash, sym, qty) => UpdatedWorth(asset, x, cash, sym, qty);
    case AccountDeleted(_) => NewAccountWorth(asset);
    case OrderPlaced(p) => LockKeepsWorth(asset, x, p.id, p.symbol, p.side, p.qty, p.price);
    case OrderRejected(id, _) => ReleaseKeepsWorth(asset, x, id);
    case OrderCanceled(id) => ReleaseKeepsWorth(asset, x, id);
    case TradeSettlement(b, s, bid, sid, sym, price, qty) =>
      BuyLegWorth(asset, x, bid, sym, price, qty);
      SellLegWorth(asset, if a == b then BuyLeg(x, bid, sym, price, qty) else x, sid, sym, price, qty);
    case _ =>
  }

  lemma ReplayLast(l: Accounts, es: seq<Event>, e: Event)
    requires Replay(l, es + [e]).Done?
    ensures Replay(l, es).Done? && ReplayEvent(Replay(l, es).value, e) == Replay(l, es + [e])
  {
    ReplayPrefix(l, es, [e]);
    ReplayAppend(l, es, [e]);
    ReplayOne(Replay(l, es).value, e);
  }

  lemma {:induction false} ReplayPrefix(l: Accounts, xs: seq<Event>, ys: seq<Event>)
    requires Replay(l, xs + ys).Done?
    ensures Replay(l, xs).Done?
    decreases |xs|
  {
    hide ReplayEvent;
    if xs != [] {
      assert (xs + ys)[0] == xs[0] && (xs + ys)[1..] == xs[1..] + ys;
      ReplayPrefix(ReplayEvent(l, xs[0]).value, xs[1..], ys);
    }
  }

  /**
   * Replaying any log from any accounts: what an account then owns of cash and of every symbol, free or locked, is
   * what its events since its last deletion add up to.
   */
  lemma {:induction false} ReplayFollowsLog(asset: Asset, l: Accounts, es: seq<Event>, a: AccountId)
    requires Replay(l, es).Done?
    ensures Worth(asset, Replay(l, es).value.Get(a)) == OwnedAfter(asset, Worth(asset, l.Get(a)), es, a)
    decreases |es|
  {
    hide Replay, ReplayEvent, Worth, Owned;
    if es == [] {
      ReplayNothing(l);
    } else {
      var init, e := es[..|es| - 1], es[|es| - 1];
      assert es == init + [e];
      ReplayLast(l, init, e);
      ReplayFollowsLog(asset, l, init, a);
      FollowsOne(asset, l, init, e, a);
    }
  }

  lemma ReplayNothing(l: Accounts)
    ensures Replay(l, []) == Done(l)
  {
  }

  lemma FollowsOne(asset: Asset, l: Accounts, es: seq<Event>, e: Event, a: AccountId)
    requires Replay(l, es + [e]).Done? && Replay(l, es).Done?
    requires Worth(asset, Replay(l, es).value.Get(a)) == OwnedAfter(asset, Worth(asset, l.Get(a)), es, a)
    ensures Worth(asset, Replay(l, es + [e]).value.Get(a)) == OwnedAfter(asset, Worth(asset, l.Get(a)), es + [e], a)
  {
    hide *;
    ReplayLast(l, es, e);
    var l1 := Replay(l, es).value;
    EffectIs(l1, e, a);
    EffectWorth(asset, l1.Get(a), e, a, Holds(l1, e, a));
    OwnedLast(asset, Worth(asset, l.Get(a)), es, e, a);
  }

  lemma OwnedLast(asset: Asset, before: real, es: seq<Event>, e: Event, a: AccountId)
    ensures OwnedAfter(asset, before, es + [e], a) == Owned(asset, OwnedAfter(asset, before, es, a), e, a)
  {
    hide Owned;
    assert (es + [e])[..|es|] == es;
  }

  /** So it is in the exchange itself: in every run every account owns what the log says came to it. */
  lemma {:induction false} AccountsFollowLog(asset: Asset, cmds: seq<Command>, a: AccountId)
    requires WellFormed(cmds) && SaneRun(cmds)
    ensures Exec(cmds).Done?
    ensures Worth(asset, Exec(cmds).value.accounts.Get(a)) == OwnedAfter(asset, 0.0, Exec(cmds).value.log, a)
  {
    ReplayIsLive(cmds);
    var s := Exec(cmds).value;
    var l := Replay(NO_ACCOUNTS, s.log).value;
    hide WellFormed, SaneRun, Exec, Replay, OwnedAfter, Balanced;
    ReplayFollowsLog(asset, NO_ACCOUNTS, s.log, a);
    assert Twin(l.Get(a), s.accounts.Get(a), {});
    TwinWorth(asset, l.Get(a), s.accounts.Get(a));
    NewAccountWorth(asset);
  }

  lemma {:induction false} TwinWorth(asset: Asset, x: Account, y: Account)
    requires Twin(x, y, {})
    ensures Worth(asset, x) == Worth(asset, y)
  {
    if asset.Shares? { assert x.Pos(asset.symbol) == y.Pos(asset.symbol); }
  }

  // ---------- what stops a replay ----------

  /** More cash is taken out than is available. */
  predicate TakesTooMuch(l: Accounts, e: Event) {
    e.AccountUpdated? && e.cashDelta < 0.0 && l.Get(e.account).cashAvail < -e.cashDelta
  }

  /** Shares of the seller are left, as many as a negative quantity is short of nothing. */
  predicate DividesByZero(l: Accounts, e: Event) {
    e.TradeSettlement? && NothingToDivideBy(l.Get(e.seller).Pos(e.symbol).Total(), e.qty, e.buyer == e.seller)
  }

  predicate NothingToDivideBy(total: real, qty: real, buysItself: bool) {
    var left := if buysItself then total else total - qty;
    left > 0.0 && left + qty == 0.0
  }

  /** Why an event is refused, if it is. */
  function Refusal(l: Accounts, e: Event): Option<Error> {
    if TakesTooMuch(l, e) then Some(CashShortfall) else if DividesByZero(l, e) then Some(DivisionByZero) else None
  }

  lemma {:induction false} RefusedWhen(l: Accounts, e: Event)
    ensures if Refusal(l, e).Some? then ReplayEvent(l, e) == Raised(Refusal(l, e).value) else ReplayEvent(l, e).Done?
  {
    hide LockIn, LockOwner, Release, TrySettle, NothingToDivideBy;
    if e.TradeSettlement? { SettlementRefused(l, e.buyer, e.seller, e.buyId, e.sellId, e.symbol, e.price, e.qty); }
  }

  lemma {:induction false} SettlementRefused(l: Accounts, b: AccountId, s: AccountId, bid: OrderId, sid: OrderId,
                                             sym: Symbol, price: real, qty: real)
    ensures var r := ReplayEvent(l, TradeSettlement(b, s, bid, sid, sym, price, qty));
      if NothingToDivideBy(l.Get(s).Pos(sym).Total(), qty, b == s) then r == Raised(DivisionByZero) else r.Done?
  {
    hide *;
    ReplaySettlementIs(l, b, s, bid, sid, sym, price, qty);
    var l0 := l.Put(b, l.Get(b));
    var l1 := l0.Put(s, l0.Get(s));
    TouchedReads(l, b, s);
    DividesWhen(l1, b, s, sym, qty);
    TriesWhen(l1, b, s, bid, sid, sym, price, qty);
  }

  lemma TouchedReads(l: Accounts, b: AccountId, s: AccountId)
    ensures var l0 := l.Put(b, l.Get(b)); l0.Put(s, l0.Get(s)).Get(s) == l.Get(s)
  {
  }

  lemma TriesWhen(l: Accounts, b: AccountId, s: AccountId, bid: OrderId, sid: OrderId, sym: Symbol, price: real,
                  qty: real)
    ensures var r := TrySettle(l, b, s, bid, sid, sym, price, qty);
      if Settleable(l, b, s, sym, qty) then r.Done? else r == Raised(DivisionByZero)
  {
    hide Settleable, Settle;
  }

  lemma {:induction false} DividesWhen(l: Accounts, b: AccountId, s: AccountId, sym: Symbol, qty: real)
    ensures Settleable(l, b, s, sym, qty) <==> !NothingToDivideBy(l.Get(s).Pos(sym).Total(), qty, b == s)
  {
    ReducibleWhen(l.Get(s).Pos(sym), qty, b == s);
    hide Reducible, NothingToDivideBy;
  }

  lemma {:induction false} ReducibleWhen(p: Position, qty: real, buysItself: bool)
    ensures Reducible(p, qty, buysItself) <==> !NothingToDivideBy(p.Total(), qty, buysItself)
    ensures qty >= 0.0 ==> Reducible(p, qty, buysItself)
  {
  }

  /** A replay stops exactly if one of its events is refused where it has come to. */
  lemma {:induction false} StopsWhen(l: Accounts, es: seq<Event>)
    ensures Replay(l, es).Raised? <==>
      exists k :: 0 <= k < |es| && Replay(l, es[..k]).Done? && Refusal(Replay(l, es[..k]).value, es[k]).Some?
    decreases |es|
  {
    hide ReplayEvent, Refusal;
    if es != [] {
      var n := |es| - 1;
      var init, e := es[..n], es[n];
      assert es == init + [e];
      StopsWhen(l, init);
      assert forall k :: 0 <= k <= n ==> es[..k] == init[..k];
      if Replay(l, init).Done? {
        ReplayAppend(l, init, [e]);
        ReplayOne(Replay(l, init).value, e);
        RefusedWhen(Replay(l, init).value, e);
        assert es[..n] == init;
      } else {
        if Replay(l, es).Done? { ReplayPrefix(l, init, [e]); }
      }
    }
  }

  // ---------- deletion ----------

  /** The same ids in the same order, but for one. */
  predicate LeftOut(ids: seq<AccountId>, a: AccountId, ids': seq<AccountId>) {
    if a in ids then exists k :: 0 <= k < |ids| && ids[k] == a && ids' == ids[..k] + ids[k + 1..] else ids' == ids
  }

  lemma {:induction false} WithoutLeavesOut(ids: seq<AccountId>, a: AccountId)
    requires forall i, j :: 0 <= i < j < |ids| ==> ids[i] != ids[j]
    ensures LeftOut(ids, a, Without(ids, a))
  {
    if a in ids {
      var k :| 0 <= k < |ids| && ids[k] == a;
      assert a !in ids[..k] && a !in ids[k + 1..];
      WithoutAt(ids[..k], a, ids[k + 1..]);
      assert ids == ids[..k] + [a] + ids[k + 1..];
    } else {
      NothingWithout(ids, a);
    }
  }

  lemma {:induction false} NothingWithout(ids: seq<AccountId>, a: AccountId)
    requires a !in ids
    ensures Without(ids, a) == ids
    decreases |ids|
  {
    if ids != [] {
      assert a !in ids[1..];
      NothingWithout(ids[1..], a);
    }
  }

  lemma {:induction false} WithoutAt(xs: seq<AccountId>, a: AccountId, ys: seq<AccountId>)
    requires a !in xs && a !in ys
    ensures Without(xs + [a] + ys, a) == xs + ys
    decreases |xs|
  {
    var all := xs + [a] + ys;
    if xs == [] {
      assert all[1..] == ys;
      NothingWithout(ys, a);
    } else {
      assert all[0] == xs[0] && all[1..] == xs[1..] + [a] + ys;
      assert a !in xs[1..];
      WithoutAt(xs[1..], a, ys);
      assert [xs[0]] + (xs[1..] + ys) == xs + ys;
    }
  }

  /** Once its deletion is replayed an account is gone, and all others are as they were, in the order they were in. */
  lemma {:induction false} DeletedIsGone(base: Accounts, es: seq<Event>, a: AccountId)
    requires AccountsOk(base) && Replay(base, es).Done?
    ensures Replay(base, es + [AccountDeleted(a)]).Done?
    ensures var l, l' := Replay(base, es).value, Replay(base, es + [AccountDeleted(a)]).value;
      && a !in l'.table && a !in l'.ids && l'.table.Keys == l.table.Keys - {a}
      && (forall b :: b in l.table && b != a ==> l'.table[b] == l.table[b]) && LeftOut(l.ids, a, l'.ids)
  {
    ReplayAppend(base, es, [AccountDeleted(a)]);
    ReplayKeepsIds(base, es);
    var l := Replay(base, es).value;
    hide Replay;
    ReplayOne(l, AccountDeleted(a));
    WithoutLeavesOut(l.ids, a);
    WithoutMeans(l.ids, a);
  }

  // ---------- one account's events alone ----------

  /** Events that name the account, or an order that may be one of its own. */
  predicate Concerns(e: Event, a: AccountId) { Names(e, a) || e.OrderRejected? || e.OrderCanceled? }

  predicate Names(e: Event, a: AccountId) {
    match e
    case AccountUpdated(b, _, _, _) => a == b
    case AccountDeleted(b) => a == b
    case OrderPlaced(p) => a == p.account
    case TradeSettlement(b, s, _, _, _, _, _) => a == b || a == s
    case _ => false
  }

  function About(es: seq<Event>, a: AccountId): seq<Event> {
    if es == [] then [] else (if Concerns(es[0], a) then [es[0]] else []) + About(es[1..], a)
  }

  /** No order is placed twice, nor any that was placed before. */
  predicate NewOrders(placed: set<OrderId>, es: seq<Event>)
    decreases |es|
  {
    es != [] ==>
      && (es[0].OrderPlaced? ==> es[0].placement.id !in placed)
      && NewOrders(placed + PlacedIn(es[0]), es[1..])
  }

  function PlacedIn(e: Event): set<OrderId> { if e.OrderPlaced? then {e.placement.id} else {} }

  predicate NoNegativeSettlement(es: seq<Event>) {
    forall i :: 0 <= i < |es| && es[i].TradeSettlement? ==> es[i].qty >= 0.0
  }

  /** Locks are those of orders placed, and no two accounts hold one for the same order. */
  ghost predicate Held(l: Accounts, placed: set<OrderId>) {
    && (forall b, id :: id in l.Get(b).locks ==> id in placed)
    && (forall b, c, id :: id in l.Get(b).locks && id in l.Get(c).locks ==> b == c)
  }

  lemma EffectLocks(x: Account, e: Event, a: AccountId, holds: bool)
    ensures forall id :: id in Effect(x, e, a, holds).locks ==>
      id in x.locks || (e.OrderPlaced? && e.placement.account == a && e.placement.id == id)
  {
    hide Value, CostAfterSale;
  }

  lemma HeldStep(l: Accounts, placed: set<OrderId>, e: Event)
    requires Held(l, placed) && ReplayEvent(l, e).Done? && (e.OrderPlaced? ==> e.placement.id !in placed)
    ensures Held(ReplayEvent(l, e).value, placed + PlacedIn(e))
  {
    hide ReplayEvent, Effect, Holds;
    var l' := ReplayEvent(l, e).value;
    forall b
      ensures forall id :: id in l'.Get(b).locks ==>
        id in l.Get(b).locks || (e.OrderPlaced? && e.placement.account == b && e.placement.id == id)
    {
      EffectIs(l, e, b);
      EffectLocks(l.Get(b), e, b, Holds(l, e, b));
    }
  }

  /** With one holder at most it does not matter who comes first. */
  lemma HoldsWhen(l: Accounts, placed: set<OrderId>, e: Event, a: AccountId)
    requires AccountsOk(l) && Held(l, placed)
    ensures Holds(l, e, a) <==> (e.OrderRejected? || e.OrderCanceled?) && e.id in l.Get(a).locks
  {
    if (e.OrderRejected? || e.OrderCanceled?) && e.id in l.Get(a).locks {
      assert a in l.ids;
    }
  }

  /** Whether an event that concerns an account raises depends on that account alone. */
  lemma DoneAlike(l: Accounts, m: Accounts, e: Event, a: AccountId)
    requires l.Get(a) == m.Get(a) && Concerns(e, a) && ReplayEvent(l, e).Done?
    requires e.TradeSettlement? ==> e.qty >= 0.0
    ensures ReplayEvent(m, e).Done?
  {
    hide LockIn, Settle, Reducible, LockOwner, Release;
  }

  lemma PresentWhen(l: Accounts, e: Event, a: AccountId)
    requires AccountsOk(l) && ReplayEvent(l, e).Done?
    ensures a in ReplayEvent(l, e).value.table <==>
      e != AccountDeleted(a) && (a in l.table || Names(e, a))
  {
    hide LockIn, BuyLeg, SellLeg, Settleable, Release;
  }

  /** The account reads the same in both, and is there in both or in neither. */
  predicate SameHere(l: Accounts, m: Accounts, a: AccountId) {
    l.Get(a) == m.Get(a) && (a in l.table <==> a in m.table)
  }

  lemma AloneStep(l: Accounts, m: Accounts, placed: set<OrderId>, e: Event, a: AccountId) returns (m1: Accounts)
    requires AccountsOk(l) && AccountsOk(m) && Held(l, placed) && Held(m, placed) && SameHere(l, m, a)
    requires ReplayEvent(l, e).Done? && (e.OrderPlaced? ==> e.placement.id !in placed)
    requires e.TradeSettlement? ==> e.qty >= 0.0
    ensures if Concerns(e, a) then ReplayEvent(m, e) == Done(m1) else m1 == m
    ensures var l1 := ReplayEvent(l, e).value;
      && AccountsOk(l1) && AccountsOk(m1) && Held(l1, placed + PlacedIn(e)) && Held(m1, placed + PlacedIn(e))
      && SameHere(l1, m1, a)
  {
    hide *;
    ReplayEventKeepsIds(l, e);
    HeldStep(l, placed, e);
    HoldsWhen(l, placed, e, a);
    HoldsWhen(m, placed, e, a);
    EffectIs(l, e, a);
    PresentWhen(l, e, a);
    SameParts(l, m, a);
    m1 := m;
    if Concerns(e, a) {
      DoneAlike(l, m, e, a);
      m1 := ReplayEvent(m, e).value;
      ReplayEventKeepsIds(m, e);
      HeldStep(m, placed, e);
      EffectIs(m, e, a);
      PresentWhen(m, e, a);
    } else {
      Unconcerned(l.Get(a), e, a);
      HeldMore(m, placed, e);
    }
    SameFrom(ReplayEvent(l, e).value, m1, a);
  }

  lemma SameParts(l: Accounts, m: Accounts, a: AccountId)
    requires SameHere(l, m, a)
    ensures l.Get(a) == m.Get(a) && (a in l.table <==> a in m.table)
  {
  }

  lemma SameFrom(l: Accounts, m: Accounts, a: AccountId)
    ensures l.Get(a) == m.Get(a) && (a in l.table <==> a in m.table) ==> SameHere(l, m, a)
  {
  }

  lemma Unconcerned(x: Account, e: Event, a: AccountId)
    requires !Concerns(e, a)
    ensures Effect(x, e, a, false) == x && !Names(e, a) && e != AccountDeleted(a)
    ensures !(e.OrderRejected? || e.OrderCanceled?)
  {
  }

  lemma HeldMore(l: Accounts, placed: set<OrderId>, e: Event)
    requires Held(l, placed)
    ensures Held(l, placed + PlacedIn(e))
  {
  }

  lemma {:induction false} ReplayAlone(l: Accounts, m: Accounts, placed: set<OrderId>, es: seq<Event>, a: AccountId)
    requires AccountsOk(l) && AccountsOk(m) && Held(l, placed) && Held(m, placed) && SameHere(l, m, a)
    requires Replay(l, es).Done? && NewOrders(placed, es) && NoNegativeSettlement(es)
    ensures Replay(m, About(es, a)).Done? && SameHere(Replay(l, es).value, Replay(m, About(es, a)).value, a)
    decreases |es|
  {
    hide AccountsOk, Held, SameHere, ReplayEvent, Concerns;
    if es != [] {
      var e, rest := es[0], es[1..];
      var m1 := AloneStep(l, m, placed, e, a);
      ReplayAlone(ReplayEvent(l, e).value, m1, placed + PlacedIn(e), rest, a);
      if Concerns(e, a) { ReplayCons(m, e, About(rest, a)); } else { assert [] + About(rest, a) == About(rest, a); }
    }
  }

  lemma {:induction false} HeldAfter(l: Accounts, placed: set<OrderId>, es: seq<Event>, later: seq<Event>)
      returns (all: set<OrderId>)
    requires Held(l, placed) && Replay(l, es).Done? && NewOrders(placed, es + later)
    ensures Held(Replay(l, es).value, all) && NewOrders(all, later)
    decreases |es|
  {
    hide Held, ReplayEvent;
    if es == [] {
      assert es + later == later;
      all := placed;
    } else {
      assert (es + later)[0] == es[0] && (es + later)[1..] == es[1..] + later;
      HeldStep(l, placed, es[0]);
      all := HeldAfter(ReplayEvent(l, es[0]).value, placed + PlacedIn(es[0]), es[1..], later);
    }
  }

  /** Accounts without any lock, as at first or from a snapshot. */
  ghost predicate Lockless(l: Accounts) { forall a :: l.Get(a).locks == map[] }

  /**
   * An account that was deleted is afterwards what the events that concern it since then make of it, starting from
   * nothing: neither what it was before nor what happened to others matters. So it is, too, if all later events are
   * replayed without the earlier ones.
   */
  lemma {:induction false} LaterEventsAlone(base: Accounts, es: seq<Event>, a: AccountId, later: seq<Event>)
    requires AccountsOk(base) && Lockless(base) && Replay(base, es + [AccountDeleted(a)] + later).Done?
    requires NewOrders({}, es + [AccountDeleted(a)] + later) && NoNegativeSettlement(later)
    ensures Replay(NO_ACCOUNTS, About(later, a)).Done?
    ensures var l' := Replay(base, es + [AccountDeleted(a)] + later).value;
      && SameHere(l', Replay(NO_ACCOUNTS, About(later, a)).value, a)
      && (Replay(NO_ACCOUNTS, later).Done? ==> SameHere(l', Replay(NO_ACCOUNTS, later).value, a))
  {
    hide *;
    var before := es + [AccountDeleted(a)];
    ReplayPrefix(base, before, later);
    ReplayPrefix(base, es, [AccountDeleted(a)]);
    ReplayAppend(base, before, later);
    ReplayKeepsIds(base, before);
    DeletedIsGone(base, es, a);
    LocklessHeld(base);
    var l := Replay(base, before).value;
    var placed := HeldAfter(base, {}, before, later);
    NothingHeld(placed);
    GoneIsNew(l, a);
    ReplayAlone(l, NO_ACCOUNTS, placed, later, a);
    if Replay(NO_ACCOUNTS, later).Done? {
      ReplayAlone(NO_ACCOUNTS, NO_ACCOUNTS, placed, later, a);
      SameParts(Replay(base, before + later).value, Replay(NO_ACCOUNTS, About(later, a)).value, a);
      SameParts(Replay(NO_ACCOUNTS, later).value, Replay(NO_ACCOUNTS, About(later, a)).value, a);
      SameFrom(Replay(base, before + later).value, Replay(NO_ACCOUNTS, later).value, a);
    }
  }

  lemma LocklessHeld(l: Accounts)
    requires Lockless(l)
    ensures Held(l, {})
  {
  }

  lemma NothingHeld(placed: set<OrderId>)
    ensures AccountsOk(NO_ACCOUNTS) && Held(NO_ACCOUNTS, placed)
    ensures forall a :: SameHere(NO_ACCOUNTS, NO_ACCOUNTS, a)
  {
  }

  lemma GoneIsNew(l: Accounts, a: AccountId)
    requires a !in l.table
    ensures SameHere(l, NO_ACCOUNTS, a)
  {
  }
}

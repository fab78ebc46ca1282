/** Rebuilding the accounts from the log, and accounts that agree up to a set of dead orders. */
module Projection {
  import opened Domain
  import opened Ledger
  import opened Orders

  /** The first account, in order of creation, that holds a lock for the order. */
  function LockOwner(l: Accounts, ids: seq<AccountId>, id: OrderId): (r: Option<AccountId>)
    ensures r.Some? ==> id in l.Get(r.value).locks
    ensures r.None? ==> forall a :: a in ids ==> id !in l.Get(a).locks
  {
    if ids == [] then None
    else if id in l.Get(ids[0]).locks then Some(ids[0])
    else LockOwner(l, ids[1..], id)
  }

  /** It is the first in the order of the ids. */
  lemma {:induction false} FirstOwner(l: Accounts, ids: seq<AccountId>, id: OrderId) returns (k: nat)
    requires LockOwner(l, ids, id).Some?
    ensures k < |ids| && LockOwner(l, ids, id) == Some(ids[k]) && id in l.Get(ids[k]).locks
    ensures forall j :: 0 <= j < k ==> id !in l.Get(ids[j]).locks
    decreases |ids|
  {
    if id in l.Get(ids[0]).locks {
      k := 0;
    } else {
      k := FirstOwner(l, ids[1..], id);
      assert forall j :: 0 < j <= k ==> ids[j] == ids[1..][j - 1];
      k := k + 1;
    }
  }

  function ReleaseOwned(l: Accounts, id: OrderId): Accounts {
    match LockOwner(l, l.ids, id)
    case None => l
    case Some(a) => Unlock(l, a, id)
  }

  function ReplayUpdate(l: Accounts, a: AccountId, cash: real, sym: Symbol, qty: real): Outcome<Accounts> {
    var l0 := l.Put(a, l.Get(a));
    var moved := if cash > 0.0 then Done(Deposit(l0, a, cash))
                 else if cash < 0.0 then Withdraw(l0, a, -cash)
                 else Done(l0);
    match moved
    case Raised(e) => Raised(e)
    case Done(l1) => Done(if sym != "" && qty != 0.0 then Seed(l1, a, sym, qty) else l1)
  }

  /**
   * One event. A lock that fails again is swallowed; a withdrawal that is not covered and a division by zero abort
   * the replay.
   */
  function ReplayEvent(l: Accounts, e: Event): Outcome<Accounts> {
    match e
    case AccountUpdated(a, cash, sym, qty) => ReplayUpdate(l, a, cash, sym, qty)
    case AccountDeleted(a) => Done(l.Drop(a))
    case OrderPlaced(p) =>
      var l0 := l.Put(p.account, l.Get(p.account));
      Done(LockFunds(l0, p.account, p.id, p.symbol, p.side, p.qty, p.price).accounts)
    case OrderRejected(id, _) => Done(ReleaseOwned(l, id))
    case OrderCanceled(id) => Done(ReleaseOwned(l, id))
    case TradeSettlement(b, s, bid, sid, sym, price, qty) =>
      var l0 := l.Put(b, l.Get(b));
      TrySettle(l0.Put(s, l0.Get(s)), b, s, bid, sid, sym, price, qty)
    case _ => Done(l)
  }

  function Replay(l: Accounts, es: seq<Event>): Outcome<Accounts>
    decreases |es|
  {
    if es == [] then Done(l)
    else
      match ReplayEvent(l, es[0])
      case Raised(e) => Raised(e)
      case Done(l1) => Replay(l1, es[1..])
  }

  lemma {:induction false} ReplayAppend(l: Accounts, xs: seq<Event>, ys: seq<Event>)
    requires Replay(l, xs).Done?
    ensures Replay(l, xs + ys) == Replay(Replay(l, xs).value, ys)
    decreases |xs|
  {
    if xs == [] { assert xs + ys == ys; }
    else {
      assert (xs + ys)[1..] == xs[1..] + ys;
      ReplayAppend(ReplayEvent(l, xs[0]).value, xs[1..], ys);
    }
  }

  // ---------- agreement up to dead orders ----------

  /**
   * Same balances, same positions (a flat one may be missing), same locks; but the first has none of the dead
   * orders'.
   */
  ghost predicate Twin(x: Account, y: Account, dead: set<OrderId>) {
    && x.cashAvail == y.cashAvail && x.cashLocked == y.cashLocked
    && (forall sym :: x.Pos(sym) == y.Pos(sym))
    && (forall id :: id !in dead ==> (id in x.locks <==> id in y.locks))
    && (forall id :: id !in dead && id in x.locks ==> x.locks[id] == y.locks[id])
    && (forall id :: id in dead ==> id !in x.locks)
  }

  /** Twins account by account; an account that was never used may be missing. */
  ghost predicate Twins(l: Accounts, m: Accounts, dead: set<OrderId>) {
    forall a :: Twin(l.Get(a), m.Get(a), dead)
  }

  lemma TwinsPut(l: Accounts, m: Accounts, dead: set<OrderId>, a: AccountId, x: Account, y: Account)
    requires Twins(l, m, dead) && Twin(x, y, dead)
    ensures Twins(l.Put(a, x), m.Put(a, y), dead)
  {
    forall b ensures Twin(l.Put(a, x).Get(b), m.Put(a, y).Get(b), dead) {
      assert Twin(l.Get(b), m.Get(b), dead);
    }
  }

  lemma TwinSetPos(x: Account, y: Account, dead: set<OrderId>, sym: Symbol, p: Position)
    requires Twin(x, y, dead)
    ensures Twin(x.SetPos(sym, p), y.SetPos(sym, p), dead)
  {
    forall s ensures x.SetPos(sym, p).Pos(s) == y.SetPos(sym, p).Pos(s) { assert x.Pos(s) == y.Pos(s); }
  }

  lemma TwinCash(x: Account, y: Account, dead: set<OrderId>, avail: real, locked: real)
    requires Twin(x, y, dead)
    ensures Twin(x.(cashAvail := avail, cashLocked := locked), y.(cashAvail := avail, cashLocked := locked), dead)
  {
    var x', y' := x.(cashAvail := avail, cashLocked := locked), y.(cashAvail := avail, cashLocked := locked);
    forall s ensures x'.Pos(s) == y'.Pos(s) { assert x.Pos(s) == y.Pos(s); }
  }

  lemma TwinLock(x: Account, y: Account, dead: set<OrderId>, id: OrderId, sym: Symbol, side: Side, qty: real,
                 price: Option<real>)
    requires Twin(x, y, dead) && id !in dead
    ensures var r, q := LockIn(x, id, sym, side, qty, price), LockIn(y, id, sym, side, qty, price);
      Twin(r.account, q.account, dead) && r.rejected == q.rejected
  {
    assert x.Pos(sym) == y.Pos(sym);
    var r, q := LockIn(x, id, sym, side, qty, price).account, LockIn(y, id, sym, side, qty, price).account;
    forall s ensures r.Pos(s) == q.Pos(s) { assert x.Pos(s) == y.Pos(s); }
  }

  lemma TwinRelease(x: Account, y: Account, dead: set<OrderId>, id: OrderId)
    requires Twin(x, y, dead) && id !in dead
    ensures Twin(Release(x, id), Release(y, id), dead)
  {
    forall s ensures Release(x, id).Pos(s) == Release(y, id).Pos(s) { assert x.Pos(s) == y.Pos(s); }
  }

  /** Giving back a lock that holds no cash changes nothing but the locks. */
  lemma TwinReleaseNothing(x: Account, y: Account, dead: set<OrderId>, id: OrderId)
    requires Twin(x, y, dead) && id in dead && id in y.locks && y.locks[id].side == Buy && y.locks[id].cash == 0.0
    ensures Twin(x, Release(y, id), dead)
  {
  }

  lemma TwinReduce(x: Account, y: Account, dead: set<OrderId>, id: OrderId, cash: real, qty: real)
    requires Twin(x, y, dead)
    ensures Twin(ReduceLock(x, id, cash, qty), ReduceLock(y, id, cash, qty), dead)
  {
    var x', y' := ReduceLock(x, id, cash, qty), ReduceLock(y, id, cash, qty);
    forall s ensures x'.Pos(s) == y'.Pos(s) { assert x.Pos(s) == y.Pos(s); }
  }

  lemma TwinBuyLeg(x: Account, y: Account, dead: set<OrderId>, id: OrderId, sym: Symbol, price: real, qty: real)
    requires Twin(x, y, dead)
    ensures Twin(BuyLeg(x, id, sym, price, qty), BuyLeg(y, id, sym, price, qty), dead)
  {
    hide Value, ReduceLock;
    var p := x.Pos(sym);
    assert p == y.Pos(sym);
    var p' := p.(avail := p.avail + qty, cost := p.cost + Value(price, qty));
    var x1 := x.SetPos(sym, p').(cashLocked := x.cashLocked - Value(price, qty));
    var y1 := y.SetPos(sym, p').(cashLocked := y.cashLocked - Value(price, qty));
    TwinSetPos(x, y, dead, sym, p');
    TwinCash(x.SetPos(sym, p'), y.SetPos(sym, p'), dead, x.cashAvail, x.cashLocked - Value(price, qty));
    TwinReduce(x1, y1, dead, id, Value(price, qty), 0.0);
  }

  lemma TwinSellLeg(x: Account, y: Account, dead: set<OrderId>, id: OrderId, sym: Symbol, price: real, qty: real)
    requires Twin(x, y, dead)
    ensures Twin(SellLeg(x, id, sym, price, qty), SellLeg(y, id, sym, price, qty), dead)
  {
    hide CostAfterSale;
    assert x.Pos(sym) == y.Pos(sym);
    var p := x.Pos(sym).(locked := x.Pos(sym).locked - qty);
    var p' := p.(cost := CostAfterSale(p, qty));
    var x1 := x.SetPos(sym, p').(cashAvail := x.cashAvail + Value(price, qty));
    var y1 := y.SetPos(sym, p').(cashAvail := y.cashAvail + Value(price, qty));
    TwinSetPos(x, y, dead, sym, p');
    TwinCash(x.SetPos(sym, p'), y.SetPos(sym, p'), dead, x.cashAvail + Value(price, qty), x.cashLocked);
    TwinReduce(x1, y1, dead, id, 0.0, qty);
  }

  lemma {:induction false} TwinsSettle(l: Accounts, m: Accounts, dead: set<OrderId>, b: AccountId, s: AccountId,
                                       bid: OrderId, sid: OrderId, sym: Symbol, price: real, qty: real)
    requires Twins(l, m, dead)
    ensures Twins(Settle(l, b, s, bid, sid, sym, price, qty), Settle(m, b, s, bid, sid, sym, price, qty), dead)
  {
    TwinsTouch(l, m, dead, b);
    var l1, m1 := l.Put(b, l.Get(b)), m.Put(b, m.Get(b));
    TwinsTouch(l1, m1, dead, s);
    var l2, m2 := l1.Put(s, l1.Get(s)), m1.Put(s, m1.Get(s));
    assert Twin(l2.Get(b), m2.Get(b), dead);
    TwinBuyLeg(l2.Get(b), m2.Get(b), dead, bid, sym, price, qty);
    var x, y := BuyLeg(l2.Get(b), bid, sym, price, qty), BuyLeg(m2.Get(b), bid, sym, price, qty);
    TwinsPut(l2, m2, dead, b, x, y);
    var l3, m3 := l2.Put(b, x), m2.Put(b, y);
    hide BuyLeg, Twin;
    assert Twin(l3.Get(s), m3.Get(s), dead);
    TwinSellLeg(l3.Get(s), m3.Get(s), dead, sid, sym, price, qty);
    TwinsPut(l3, m3, dead, s, SellLeg(l3.Get(s), sid, sym, price, qty), SellLeg(m3.Get(s), sid, sym, price, qty));
  }

  /** Twins settle alike, or neither settles. */
  lemma TwinsTrySettle(l: Accounts, m: Accounts, dead: set<OrderId>, b: AccountId, s: AccountId, bid: OrderId,
                       sid: OrderId, sym: Symbol, price: real, qty: real)
    requires Twins(l, m, dead)
    ensures TwinOutcomes(TrySettle(l, b, s, bid, sid, sym, price, qty), TrySettle(m, b, s, bid, sid, sym, price, qty),
      dead)
  {
    hide Settle, Settleable, Twins;
    TwinsSettleable(l, m, dead, b, s, sym, qty);
    TwinsSettle(l, m, dead, b, s, bid, sid, sym, price, qty);
  }

  /** Both raise the same, or both come out as twins. */
  ghost predicate TwinOutcomes(x: Outcome<Accounts>, y: Outcome<Accounts>, dead: set<OrderId>) {
    if y.Done? then x.Done? && Twins(x.value, y.value, dead) else x == y
  }

  lemma TwinsSettleable(l: Accounts, m: Accounts, dead: set<OrderId>, b: AccountId, s: AccountId, sym: Symbol,
                        qty: real)
    requires Twins(l, m, dead)
    ensures Settleable(l, b, s, sym, qty) == Settleable(m, b, s, sym, qty)
  {
    hide Reducible;
    assert Twin(l.Get(s), m.Get(s), dead) && l.Get(s).Pos(sym) == m.Get(s).Pos(sym);
  }

  /** Making sure an account exists changes nothing that can be read. */
  lemma TwinsTouch(l: Accounts, m: Accounts, dead: set<OrderId>, a: AccountId)
    requires Twins(l, m, dead)
    ensures Twins(l.Put(a, l.Get(a)), m, dead)
    ensures Twins(l.Put(a, l.Get(a)), m.Put(a, m.Get(a)), dead)
    ensures Twins(l, m.Put(a, m.Get(a)), dead)
  {
    hide Twin;
    forall b ensures l.Put(a, l.Get(a)).Get(b) == l.Get(b) && m.Put(a, m.Get(a)).Get(b) == m.Get(b) {}
  }
}

/** Accounts as the objects that are changed in place: a position per symbol, and the account that owns them. */
module AccountRecords {
  import opened Domain
  import opened Ledger

  class PositionRecord {
    var qtyAvailable: real
    var qtyLocked: real
    var totalCost: real

    constructor ()
      ensures View() == NO_POSITION
    {
      qtyAvailable, qtyLocked, totalCost := 0.0, 0.0, 0.0;
    }

    function View(): Position
      reads this
    {
      Position(qtyAvailable, qtyLocked, totalCost)
    }
  }

  class AccountRecord {
    const id: AccountId
    var cashAvailable: real
    var cashLocked: real
    var positions: map<Symbol, PositionRecord>
    var orderLocks: map<OrderId, Lock>
    ghost var Repr: set<object>

    constructor (id: AccountId)
      ensures Valid() && fresh(Repr) && View() == NEW_ACCOUNT && this.id == id
    {
      this.id := id;
      cashAvailable, cashLocked, positions, orderLocks := 0.0, 0.0, map[], map[];
      Repr := {this};
    }

    /** Each symbol has a position of its own. */
    ghost predicate Valid()
      reads this, Repr
      ensures Valid() ==> this in Repr
    {
      && this in Repr
      && (forall sym :: sym in positions ==> positions[sym] in Repr)
      && (forall x, y :: x in positions && y in positions && x != y ==> positions[x] != positions[y])
    }

    ghost function View(): Account
      requires Valid()
      reads this, Repr
    {
      Account(cashAvailable, cashLocked, map sym | sym in positions :: positions[sym].View(), orderLocks)
    }

    method GetPosition(sym: Symbol) returns (p: PositionRecord)
      requires Valid()
      modifies this`positions, this`Repr
      ensures Valid() && sym in positions && p == positions[sym] && p in Repr
      ensures p.View() == old(View()).Pos(sym)
      ensures View() == old(View()).SetPos(sym, old(View()).Pos(sym))
      ensures fresh(Repr - old(Repr)) && old(Repr) <= Repr
    {
      if sym !in positions {
        CreatePosition(sym);
      }
      p := positions[sym];
      TouchedPosition(View(), sym);
    }

    method CreatePosition(sym: Symbol)
      requires Valid() && sym !in positions
      modifies this`positions, this`Repr
      ensures Valid() && sym in positions
      ensures View() == old(View()).SetPos(sym, old(View()).Pos(sym))
      ensures fresh(Repr - old(Repr)) && old(Repr) <= Repr
    {
      hide PositionRecord.View;
      var created := new PositionRecord();
      positions := positions[sym := created];
      Repr := Repr + {created};
      assert View().positions == old(View()).positions[sym := created.View()];
    }

    lemma TouchedPosition(x: Account, sym: Symbol)
      requires sym in x.positions
      ensures x == x.SetPos(sym, x.Pos(sym))
    {
    }

    /** After one position changed, the view changed in that one place. */
    twostate lemma OnePositionMoved(sym: Symbol)
      requires old(Valid()) && positions == old(positions) && Repr == old(Repr) && sym in positions
      requires cashAvailable == old(cashAvailable) && cashLocked == old(cashLocked) && orderLocks == old(orderLocks)
      requires forall s :: s in positions && s != sym ==> unchanged(positions[s])
      ensures Valid() && View() == old(View()).SetPos(sym, positions[sym].View())
    {
    }

    method Deposit(amount: real)
      requires Valid()
      modifies this`cashAvailable
      ensures Valid()
      ensures View() == old(View()).(cashAvail := old(View()).cashAvail + amount)
    {
      cashAvailable := cashAvailable + amount;
    }

    method Withdraw(amount: real) returns (error: Option<Error>)
      requires Valid()
      modifies this`cashAvailable
      ensures Valid()
      ensures error.Some? <==> old(View()).cashAvail < amount
      ensures error.Some? ==> error.value == CashShortfall && View() == old(View())
      ensures error.None? ==> View() == old(View()).(cashAvail := old(View()).cashAvail - amount)
    {
      if cashAvailable < amount {
        return Some(CashShortfall);
      }
      cashAvailable := cashAvailable - amount;
      return None;
    }

    // ---------- snapshots ----------

    /** Cash and the positions that hold something. */
    method ToSnapshot() returns (saved: SavedAccount)
      requires Valid()
      ensures saved.id == id && TakeOver(NEW_ACCOUNT, saved) == Kept(View())
    {
      hide Valid;
      ghost var held := View().positions;
      var rest := positions.Keys;
      var kept: seq<SavedPosition> := [];
      assert WithPositions(map[], kept) == map[];
      hide WithPositions, Valid, View;
      while rest != {}
        invariant rest <= positions.Keys
        invariant WithPositions(map[], kept)
          == map sym | sym in held && sym !in rest && held[sym].Total() > 0.0 :: held[sym]
      {
        var sym :| sym in rest;
        var pos := positions[sym];
        if pos.qtyAvailable + pos.qtyLocked > 0.0 {
          var entry := SavedPosition(sym, pos.View());
          OneMorePosition(map[], kept, entry);
          kept := kept + [entry];
        }
        rest := rest - {sym};
      }
      saved := SavedAccount(id, cashAvailable, cashLocked, kept);
    }

    /** Take over what a snapshot says of an account. */
    method FromSnapshot(saved: SavedAccount)
      requires Valid()
      modifies Repr
      ensures Valid() && fresh(Repr - old(Repr)) && old(Repr) <= Repr
      ensures View() == TakeOver(old(View()), saved)
    {
      hide View, Valid;
      ghost var x := View();
      SetCash(saved.cashAvail, saved.cashLocked);
      var ps := saved.positions;
      for i := 0 to |ps|
        invariant Valid() && fresh(Repr - old(Repr)) && old(Repr) <= Repr
        invariant View() == Account(saved.cashAvail, saved.cashLocked, WithPositions(x.positions, ps[..i]), x.locks)
      {
        assert ps[..i + 1][..i] == ps[..i];
        LoadPosition(ps[i].symbol, ps[i].position);
      }
      assert ps[..|ps|] == ps;
    }

    method SetCash(avail: real, locked: real)
      requires Valid()
      modifies this`cashAvailable, this`cashLocked
      ensures Valid() && View() == old(View()).(cashAvail := avail, cashLocked := locked)
    {
      cashAvailable, cashLocked := avail, locked;
    }

    method LoadPosition(sym: Symbol, p: Position)
      requires Valid()
      modifies Repr
      ensures Valid() && fresh(Repr - old(Repr)) && old(Repr) <= Repr
      ensures View() == old(View()).SetPos(sym, p)
    {
      hide View, Valid;
      ghost var x := View();
      var _ := GetPosition(sym);
      SetPosition(sym, p);
      SetPosTwice(x, sym, x.Pos(sym), p);
    }

    /** Change the numbers of a position that is there. */
    method SetPosition(sym: Symbol, p: Position)
      requires Valid() && sym in positions
      modifies positions[sym]
      ensures Valid()
      ensures View() == old(View()).SetPos(sym, p)
    {
      var pos := positions[sym];
      pos.qtyAvailable, pos.qtyLocked, pos.totalCost := p.avail, p.locked, p.cost;
      hide View, Valid;
      OnePositionMoved(sym);
    }

    // ---------- the steps of a settlement ----------

    method PayFromLocked(cost: real)
      requires Valid()
      modifies this`cashLocked
      ensures Valid()
      ensures View() == old(View()).(cashLocked := old(View()).cashLocked - cost)
    {
      cashLocked := cashLocked - cost;
    }

    /** Shares leave the locked part of a position. */
    method ReleaseShares(sym: Symbol, qty: real)
      requires Valid()
      modifies Repr
      ensures Valid() && fresh(Repr - old(Repr)) && old(Repr) <= Repr
      ensures View() == SharesReleased(old(View()), sym, qty)
    {
      hide View, Valid;
      ghost var x := View();
      var pos := GetPosition(sym);
      SetPosition(sym, Position(pos.qtyAvailable, pos.qtyLocked - qty, pos.totalCost));
      SetPosTwice(x, sym, x.Pos(sym), x.Pos(sym).(locked := x.Pos(sym).locked - qty));
    }

    /** Shares arrive, with what was paid for them. */
    method ReceiveShares(sym: Symbol, qty: real, cost: real)
      requires Valid()
      modifies Repr
      ensures Valid() && fresh(Repr - old(Repr)) && old(Repr) <= Repr
      ensures View() == SharesReceived(old(View()), sym, qty, cost)
    {
      hide View, Valid;
      ghost var x := View();
      var pos := GetPosition(sym);
      SetPosition(sym, Position(pos.qtyAvailable + qty, pos.qtyLocked, pos.totalCost + cost));
      SetPosTwice(x, sym, x.Pos(sym), x.Pos(sym).(avail := x.Pos(sym).avail + qty, cost := x.Pos(sym).cost + cost));
    }

    /** Shares have left: the cost basis shrinks in proportion, or to nothing. */
    method ReduceBasis(sym: Symbol, qty: real) returns (error: Option<Error>)
      requires Valid()
      modifies Repr
      ensures Valid() && fresh(Repr - old(Repr)) && old(Repr) <= Repr
      ensures error == if Divisible(old(View()).Pos(sym).Total(), qty) then None else Some(DivisionByZero)
      ensures error.None? ==> View() == BasisReduced(old(View()), sym, qty)
      ensures error.Some? ==> View() == old(View()).SetPos(sym, old(View()).Pos(sym))
    {
      hide CostAfterSale, Divisible, View, Valid;
      ghost var x := View();
      var pos := GetPosition(sym);
      assert x.SetPos(sym, x.Pos(sym)).Pos(sym) == x.Pos(sym);
      var cost := BasisLeft(pos.View(), qty);
      if cost.None? {
        return Some(DivisionByZero);
      }
      SetPosition(sym, Position(pos.qtyAvailable, pos.qtyLocked, cost.value));
      SetPosTwice(x, sym, x.Pos(sym), x.Pos(sym).(cost := cost.value));
      return None;
    }

    static method BasisLeft(p: Position, qty: real) returns (cost: Option<real>)
      ensures cost == if Divisible(p.Total(), qty) then Some(CostAfterSale(p, qty)) else None
    {
      if p.Total() > 0.0 {
        if p.Total() + qty == 0.0 {
          return None;
        }
        return Some(p.cost - p.cost / (p.Total() + qty) * qty);
      }
      return Some(0.0);
    }

    method ReduceOrderLock(orderId: OrderId, cash: real, qty: real)
      requires Valid()
      modifies this`orderLocks
      ensures Valid()
      ensures View() == ReduceLock(old(View()), orderId, cash, qty)
    {
      if orderId !in orderLocks {
        return;
      }
      var lock := orderLocks[orderId];
      var newCash, newQty := lock.cash - cash, lock.qty - qty;
      if newCash <= 0.0 && newQty <= 0.0 {
        orderLocks := orderLocks - {orderId};
      } else {
        orderLocks := orderLocks[orderId := Lock(lock.side, lock.symbol, newCash, newQty)];
      }
    }

    /** Reserve cash or shares for an order, or say why not. */
    method LockOrder(orderId: OrderId, sym: Symbol, side: Side, qty: real, price: Option<real>)
      returns (rejected: Option<Reason>)
      requires Valid()
      modifies Repr
      ensures Valid() && fresh(Repr - old(Repr)) && old(Repr) <= Repr
      ensures Attempt(View(), rejected) == LockIn(old(View()), orderId, sym, side, qty, price)
      ensures rejected == Shortage(old(View()), sym, side, qty, price)
    {
      hide Value, Shortage;
      LockRefusals(View(), orderId, sym, side, qty, price);
      if side == Buy {
        rejected := LockCash(orderId, sym, qty, price);
      } else {
        rejected := LockShares(orderId, sym, qty);
      }
    }

    method LockCash(orderId: OrderId, sym: Symbol, qty: real, price: Option<real>) returns (rejected: Option<Reason>)
      requires Valid()
      modifies this`cashAvailable, this`cashLocked, this`orderLocks
      ensures Valid()
      ensures Attempt(View(), rejected) == LockIn(old(View()), orderId, sym, Buy, qty, price)
    {
      hide Value;
      if price.None? {
        return Some(InsufficientCash);
      }
      var cost := Value(price.value, qty);
      if cashAvailable < cost {
        return Some(InsufficientCash);
      }
      cashAvailable := cashAvailable - cost;
      cashLocked := cashLocked + cost;
      orderLocks := orderLocks[orderId := Lock(Buy, sym, cost, qty)];
      return None;
    }

    method LockShares(orderId: OrderId, sym: Symbol, qty: real) returns (rejected: Option<Reason>)
      requires Valid()
      modifies Repr
      ensures Valid() && fresh(Repr - old(Repr)) && old(Repr) <= Repr
      ensures Attempt(View(), rejected) == LockIn(old(View()), orderId, sym, Sell, qty, None)
    {
      hide Valid, View;
      ghost var x := View();
      var pos := GetPosition(sym);
      assert x.SetPos(sym, x.Pos(sym)).Pos(sym) == x.Pos(sym);
      if pos.qtyAvailable < qty {
        return Some(InsufficientPosition);
      }
      MoveToLocked(sym, qty);
      SetLock(orderId, Lock(Sell, sym, 0.0, qty));
      SetPosTwice(x, sym, x.Pos(sym), x.Pos(sym).(avail := x.Pos(sym).avail - qty, locked := x.Pos(sym).locked + qty));
      return None;
    }

    method MoveToLocked(sym: Symbol, qty: real)
      requires Valid() && sym in positions
      modifies positions[sym]
      ensures Valid()
      ensures var p := old(View()).Pos(sym);
        View() == old(View()).SetPos(sym, p.(avail := p.avail - qty, locked := p.locked + qty))
    {
      var pos := positions[sym];
      SetPosition(sym, Position(pos.qtyAvailable - qty, pos.qtyLocked + qty, pos.totalCost));
    }

    method SetLock(orderId: OrderId, lock: Lock)
      requires Valid()
      modifies this`orderLocks
      ensures Valid()
      ensures View() == old(View()).(locks := old(View()).locks[orderId := lock])
    {
      orderLocks := orderLocks[orderId := lock];
    }

    method PopLock(orderId: OrderId) returns (lock: Option<Lock>)
      requires Valid()
      modifies this`orderLocks
      ensures Valid()
      ensures lock.Some? <==> orderId in old(View()).locks
      ensures lock.Some? ==> lock.value == old(View()).locks[orderId]
      ensures View() == old(View()).(locks := old(View()).locks - {orderId})
    {
      lock := if orderId in orderLocks then Some(orderLocks[orderId]) else None;
      orderLocks := orderLocks - {orderId};
    }

    method UnlockCash(cash: real)
      requires Valid()
      modifies this`cashAvailable, this`cashLocked
      ensures Valid()
      ensures View() == old(View()).(cashLocked := old(View()).cashLocked - cash,
        cashAvail := old(View()).cashAvail + cash)
    {
      cashLocked := cashLocked - cash;
      cashAvailable := cashAvailable + cash;
    }

    /** Reverse a lock; an order without one is left alone. */
    method ReleaseLock(orderId: OrderId)
      requires Valid()
      modifies Repr
      ensures Valid() && fresh(Repr - old(Repr)) && old(Repr) <= Repr
      ensures View() == Release(old(View()), orderId)
    {
      hide PositionRecord.View;
      var lock := PopLock(orderId);
      if lock.None? {
        assert old(View()).locks - {orderId} == old(View()).locks;
        return;
      }
      if lock.value.side == Buy {
        UnlockCash(lock.value.cash);
      } else {
        UnlockShares(lock.value.symbol, lock.value.qty);
      }
    }

    method UnlockShares(sym: Symbol, qty: real)
      requires Valid()
      modifies Repr
      ensures Valid() && fresh(Repr - old(Repr)) && old(Repr) <= Repr
      ensures var p := old(View()).Pos(sym);
        View() == old(View()).SetPos(sym, p.(locked := p.locked - qty, avail := p.avail + qty))
    {
      hide View, Valid;
      ghost var x := View();
      var pos := GetPosition(sym);
      SetPosition(sym, Position(pos.qtyAvailable + qty, pos.qtyLocked - qty, pos.totalCost));
      SetPosTwice(x, sym, x.Pos(sym), x.Pos(sym).(locked := x.Pos(sym).locked - qty, avail := x.Pos(sym).avail + qty));
    }

    // ---------- settlement against the market ----------

    method SettleMarket(id: OrderId, sym: Symbol, side: Side, price: real, qty: real) returns (error: Option<Error>)
      requires Valid()
      modifies Repr
      ensures Valid() && fresh(Repr - old(Repr)) && old(Repr) <= Repr
      ensures error == if SettleableOnMarket(old(View()), sym, side, qty) then None else Some(DivisionByZero)
      ensures error.None? ==> View() == MarketLeg(old(View()), id, sym, side, price, qty)
      ensures error.Some? ==> View() == SharesReleased(old(View()), sym, qty)
    {
      hide View, Valid, MarketBuy, MarketSell;
      if side == Buy {
        SettleMarketBuy(id, sym, price, qty);
        return None;
      }
      error := SettleMarketSell(id, sym, price, qty);
    }

    /** Pay, receive, give back what the lock has left over, and drop the lock. */
    method SettleMarketBuy(id: OrderId, sym: Symbol, price: real, qty: real)
      requires Valid()
      modifies Repr
      ensures Valid() && fresh(Repr - old(Repr)) && old(Repr) <= Repr
      ensures View() == MarketBuy(old(View()), id, sym, price, qty)
    {
      hide View, Valid, Value;
      ghost var x := View();
      var cost := Value(price, qty);
      PayFromLocked(cost);
      ReceiveShares(sym, qty, cost);
      var held := GetOrderLock(id);
      if held.Some? && held.value.cash - cost > 0.0 {
        UnlockCash(held.value.cash - cost);
      }
      var lock := PopLock(id);
      MarketBuySteps(x, id, sym, price, qty);
    }

    method GetOrderLock(id: OrderId) returns (lock: Option<Lock>)
      requires Valid()
      ensures lock == if id in View().locks then Some(View().locks[id]) else None
    {
      lock := if id in orderLocks then Some(orderLocks[id]) else None;
    }

    method SettleMarketSell(id: OrderId, sym: Symbol, price: real, qty: real) returns (error: Option<Error>)
      requires Valid()
      modifies Repr
      ensures Valid() && fresh(Repr - old(Repr)) && old(Repr) <= Repr
      ensures error == if SettleableOnMarket(old(View()), sym, Sell, qty) then None else Some(DivisionByZero)
      ensures error.None? ==> View() == MarketSell(old(View()), id, sym, price, qty)
      ensures error.Some? ==> View() == SharesReleased(old(View()), sym, qty)
    {
      hide *;
      ghost var x := View();
      SellableWhen(x, sym, qty);
      ReleasedAgain(x, sym, qty);
      ReleaseShares(sym, qty);
      error := ReduceBasis(sym, qty);
      if error.Some? {
        return;
      }
      Deposit(Value(price, qty));
      var lock := PopLock(id);
      MarketSellSteps(x, id, sym, price, qty);
    }
  }

  function SharesReleased(x: Account, sym: Symbol, qty: real): Account {
    x.SetPos(sym, x.Pos(sym).(locked := x.Pos(sym).locked - qty))
  }

  function SharesReceived(x: Account, sym: Symbol, qty: real, cost: real): Account {
    x.SetPos(sym, x.Pos(sym).(avail := x.Pos(sym).avail + qty, cost := x.Pos(sym).cost + cost))
  }

  function BasisReduced(x: Account, sym: Symbol, qty: real): Account {
    x.SetPos(sym, x.Pos(sym).(cost := CostAfterSale(x.Pos(sym), qty)))
  }

  lemma SetPosTwice(x: Account, sym: Symbol, p: Position, q: Position)
    ensures x.SetPos(sym, p).SetPos(sym, q) == x.SetPos(sym, q)
  {
  }

  /** What a settlement has done to the buyer, and to the seller, when the seller's cost basis comes to be reduced. */
  function BuyerServed(x: Account, sym: Symbol, price: real, qty: real): Account {
    SharesReceived(x.(cashLocked := x.cashLocked - Value(price, qty)), sym, qty, Value(price, qty))
  }

  function SellerServed(y: Account, sym: Symbol, price: real, qty: real): Account {
    SharesReleased(y.(cashAvail := y.cashAvail + Value(price, qty)), sym, qty)
  }

  lemma ReleasedAgain(x: Account, sym: Symbol, qty: real)
    ensures var y := SharesReleased(x, sym, qty); y.SetPos(sym, y.Pos(sym)) == y
  {
  }

  /** The steps on the buyer alone make up the BUY leg. */
  lemma BuySteps(x: Account, id: OrderId, sym: Symbol, price: real, qty: real)
    ensures var cost := Value(price, qty);
      ReduceLock(SharesReceived(x.(cashLocked := x.cashLocked - cost), sym, qty, cost), id, cost, 0.0)
        == BuyLeg(x, id, sym, price, qty)
  {
    hide Value;
  }

  /** The steps on the seller alone make up the SELL leg. */
  lemma SellSteps(x: Account, id: OrderId, sym: Symbol, price: real, qty: real)
    ensures var cost := Value(price, qty);
      ReduceLock(BasisReduced(SharesReleased(x.(cashAvail := x.cashAvail + cost), sym, qty), sym, qty), id, 0.0, qty)
        == SellLeg(x, id, sym, price, qty)
  {
    hide Value, CostAfterSale;
    var y := SharesReleased(x.(cashAvail := x.cashAvail + Value(price, qty)), sym, qty);
    var p := x.Pos(sym).(locked := x.Pos(sym).locked - qty);
    assert y.positions[sym := p.(cost := CostAfterSale(p, qty))]
      == x.positions[sym := p.(cost := CostAfterSale(p, qty))];
  }

  /** On one and the same account the interleaved steps make up the BUY leg followed by the SELL leg. */
  lemma {:induction false} SelfSteps(x: Account, buyId: OrderId, sellId: OrderId, sym: Symbol, price: real, qty: real)
    ensures var cost := Value(price, qty);
      var y := x.(cashLocked := x.cashLocked - cost, cashAvail := x.cashAvail + cost);
      var z := BasisReduced(SharesReceived(SharesReleased(y, sym, qty), sym, qty, cost), sym, qty);
      ReduceLock(ReduceLock(z, buyId, cost, 0.0), sellId, 0.0, qty)
        == SellLeg(BuyLeg(x, buyId, sym, price, qty), sellId, sym, price, qty)
  {
    hide Value, CostAfterSale, ReduceLock;
    var cost := Value(price, qty);
    var p := x.Pos(sym).(locked := x.Pos(sym).locked - qty, avail := x.Pos(sym).avail + qty,
      cost := x.Pos(sym).cost + cost);
    var p' := p.(cost := CostAfterSale(p, qty));
    var y := x.(cashLocked := x.cashLocked - cost, cashAvail := x.cashAvail + cost);
    var z := BasisReduced(SharesReceived(SharesReleased(y, sym, qty), sym, qty, cost), sym, qty);
    assert z.positions == x.positions[sym := p'];
    var q := x.Pos(sym).(avail := x.Pos(sym).avail + qty, cost := x.Pos(sym).cost + cost);
    var x1 := x.SetPos(sym, q).(cashLocked := x.cashLocked - cost);
    ReduceIsLocal(x1, buyId, cost, 0.0);
    ReduceIsLocal(z, buyId, cost, 0.0);
    var b := BuyLeg(x, buyId, sym, price, qty);
    assert b == ReduceLock(x1, buyId, cost, 0.0);
    assert b.positions[sym := p'] == x.positions[sym := p'];
    assert ReduceLock(z, buyId, cost, 0.0) == b.(positions := b.positions[sym := p'], cashAvail := x.cashAvail + cost);
  }

  /** Reducing a lock only looks at and only touches the locks. */
  lemma ReduceIsLocal(x: Account, id: OrderId, cash: real, qty: real)
    ensures ReduceLock(x, id, cash, qty)
      == x.(locks := ReduceLock(Account(0.0, 0.0, map[], x.locks), id, cash, qty).locks)
  {
  }

  lemma MarketBuySteps(x: Account, id: OrderId, sym: Symbol, price: real, qty: real)
    ensures var cost := Value(price, qty);
      var y := SharesReceived(x.(cashLocked := x.cashLocked - cost), sym, qty, cost);
      var z := if id in y.locks && y.locks[id].cash - cost > 0.0
               then y.(cashLocked := y.cashLocked - (y.locks[id].cash - cost),
                 cashAvail := y.cashAvail + (y.locks[id].cash - cost))
               else y;
      z.(locks := z.locks - {id}) == MarketBuy(x, id, sym, price, qty)
  {
  }

  lemma SellableWhen(x: Account, sym: Symbol, qty: real)
    ensures SettleableOnMarket(x, sym, Sell, qty) == Divisible(SharesReleased(x, sym, qty).Pos(sym).Total(), qty)
  {
  }

  lemma MarketSellSteps(x: Account, id: OrderId, sym: Symbol, price: real, qty: real)
    ensures var y := BasisReduced(SharesReleased(x, sym, qty), sym, qty);
      y.(cashAvail := y.cashAvail + Value(price, qty), locks := y.locks - {id}) == MarketSell(x, id, sym, price, qty)
  {
    hide Value, CostAfterSale;
    var p := x.Pos(sym).(locked := x.Pos(sym).locked - qty);
    assert x.positions[sym := p][sym := p.(cost := CostAfterSale(p, qty))]
      == x.positions[sym := p.(cost := CostAfterSale(p, qty))];
  }
}

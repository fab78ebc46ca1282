/** Every ledger operation keeps an account balanced. */
module LedgerLaws {
  import opened Domain
  import opened Sums
  import opened Ledger

  lemma CashLockKeepsBalance(acct: Account, id: OrderId, k: Lock)
    requires Balanced(acct) && id !in acct.locks && k.side == Buy && k.qty > 0.0
    requires 0.0 <= k.cash <= acct.cashAvail
    ensures Balanced(acct.(cashAvail := acct.cashAvail - k.cash, cashLocked := acct.cashLocked + k.cash,
                           locks := acct.locks[id := k]))
  {
    var acct' := acct.(cashAvail := acct.cashAvail - k.cash, cashLocked := acct.cashLocked + k.cash,
                       locks := acct.locks[id := k]);
    forall asset ensures AssetOk(asset, acct') {
      assert AssetOk(asset, acct);
      ReservedSet(asset, acct.locks, id, k);
    }
    forall s ensures CostOk(acct'.Pos(s)) { assert CostOk(acct.Pos(s)); }
  }

  lemma ShareLockKeepsBalance(acct: Account, id: OrderId, k: Lock, p: Position)
    requires Balanced(acct) && id !in acct.locks && k.side == Sell && k.cash == 0.0 && k.qty > 0.0
    requires p == acct.Pos(k.symbol) && k.qty <= p.avail
    ensures Balanced(acct.SetPos(k.symbol, p.(avail := p.avail - k.qty, locked := p.locked + k.qty))
                         .(locks := acct.locks[id := k]))
  {
    var acct' := acct.SetPos(k.symbol, p.(avail := p.avail - k.qty, locked := p.locked + k.qty))
                     .(locks := acct.locks[id := k]);
    forall asset ensures AssetOk(asset, acct') {
      assert AssetOk(asset, acct);
      ReservedSet(asset, acct.locks, id, k);
    }
    forall s ensures CostOk(acct'.Pos(s)) { assert CostOk(acct.Pos(s)); }
  }

  /** A position that was looked at may now be recorded. */
  lemma TouchKeepsBalance(acct: Account, sym: Symbol)
    requires Balanced(acct)
    ensures Balanced(acct.SetPos(sym, acct.Pos(sym)))
  {
    var acct' := acct.SetPos(sym, acct.Pos(sym));
    forall asset ensures AssetOk(asset, acct') { assert AssetOk(asset, acct); }
    forall s ensures CostOk(acct'.Pos(s)) { assert CostOk(acct.Pos(s)); }
  }

  lemma LockKeepsBalance(acct: Account, id: OrderId, sym: Symbol, side: Side, qty: real, price: Option<real>)
    requires Balanced(acct) && id !in acct.locks && qty > 0.0
    requires side == Buy && price.Some? ==> price.value >= 0.0
    ensures Balanced(LockIn(acct, id, sym, side, qty, price).account)
  {
    hide Value, Balanced;
    var r := LockIn(acct, id, sym, side, qty, price);
    if r.rejected != None {
      if side == Sell { TouchKeepsBalance(acct, sym); }
    } else if side == Buy {
      ValueNonNegative(price.value, qty);
      CashLockKeepsBalance(acct, id, Lock(Buy, sym, Value(price.value, qty), qty));
    } else {
      ShareLockKeepsBalance(acct, id, Lock(Sell, sym, 0.0, qty), acct.Pos(sym));
    }
  }

  lemma ReleaseKeepsBalance(acct: Account, id: OrderId)
    requires Balanced(acct)
    ensures Balanced(Release(acct, id))
  {
    if id in acct.locks {
      var acct' := Release(acct, id);
      forall asset ensures AssetOk(asset, acct') {
        assert AssetOk(asset, acct);
        ReservedRemove(asset, acct.locks, id);
      }
      forall s ensures CostOk(acct'.Pos(s)) { assert CostOk(acct.Pos(s)); }
    }
  }

  /** A reservation of one asset never exceeds what the account has locked of it. */
  lemma ReserveBound(acct: Account, asset: Asset, id: OrderId)
    requires Balanced(acct) && id in acct.locks
    ensures Reserve(asset, acct.locks[id]) <= Locked(asset, acct)
  {
    MapSumBound(Reserves(asset, acct.locks), id);
    assert AssetOk(asset, acct);
  }

  lemma ValueNonNegative(price: real, qty: real)
    requires price >= 0.0 && qty >= 0.0
    ensures Value(price, qty) >= 0.0
  {
  }

  lemma BuyLegKeepsBalance(acct: Account, id: OrderId, sym: Symbol, price: real, qty: real)
    requires Balanced(acct) && id in acct.locks && acct.locks[id].side == Buy
    requires price >= 0.0 && qty > 0.0 && Value(price, qty) <= acct.locks[id].cash
    ensures Balanced(BuyLeg(acct, id, sym, price, qty))
    ensures BuyLeg(acct, id, sym, price, qty).locks ==
      acct.locks[id := acct.locks[id].(cash := acct.locks[id].cash - Value(price, qty))]
  {
    hide Value;
    ValueNonNegative(price, qty);
    var cost := Value(price, qty);
    var acct' := BuyLeg(acct, id, sym, price, qty);
    var k := acct.locks[id].(cash := acct.locks[id].cash - cost);
    assert acct'.locks == acct.locks[id := k];
    forall asset ensures AssetOk(asset, acct') {
      assert AssetOk(asset, acct);
      ReservedSet(asset, acct.locks, id, k);
    }
    BalancedNonNegative(acct, Shares(sym));
    forall s ensures CostOk(acct'.Pos(s)) { assert CostOk(acct.Pos(s)); }
  }

  /** The basis shrinks in proportion: cost per share is what it was before the sale. */
  lemma CostPerShareKept(p: Position, qty: real)
    requires p.Total() > 0.0 && qty > 0.0
    ensures CostAfterSale(p, qty) * (p.Total() + qty) == p.cost * p.Total()
    ensures p.cost >= 0.0 ==> CostAfterSale(p, qty) >= 0.0
  {
    var t := p.Total();
    var r := p.cost / (t + qty);
    assert r * (t + qty) == p.cost;
    assert CostAfterSale(p, qty) == r * t;
    calc {
      CostAfterSale(p, qty) * (t + qty);
      r * t * (t + qty);
      r * (t + qty) * t;
      p.cost * t;
    }
  }

  /** The same cost per share, multiplied out so that a flat position has it with any other. */
  predicate SameCostPerShare(p: Position, p': Position) { p'.cost * p.Total() == p.cost * p'.Total() }

  lemma SharesLeave(p: Position, q: Position, qty: real)
    requires q == p.(locked := p.locked - qty) && q.Total() >= 0.0 && qty > 0.0
    ensures SameCostPerShare(p, q.(cost := CostAfterSale(q, qty)))
  {
    if q.Total() > 0.0 { CostPerShareKept(q, qty); }
  }

  /** A sale leaves the seller's cost per share as it was. */
  lemma {:induction false} SaleKeepsCostPerShare(acct: Account, id: OrderId, sym: Symbol, price: real, qty: real)
    requires Balanced(acct) && id in acct.locks
    requires acct.locks[id].side == Sell && acct.locks[id].symbol == sym && acct.locks[id].cash == 0.0
    requires 0.0 < qty <= acct.locks[id].qty
    ensures SameCostPerShare(acct.Pos(sym), SellLeg(acct, id, sym, price, qty).Pos(sym))
    ensures SellLeg(acct, id, sym, price, qty).Pos(sym).Total() == acct.Pos(sym).Total() - qty
  {
    SellLegFields(acct, id, sym, price, qty);
    hide SellLeg, CostAfterSale, SameCostPerShare, Value;
    ReserveBound(acct, Shares(sym), id);
    assert AssetOk(Shares(sym), acct);
    SharesLeave(acct.Pos(sym), acct.Pos(sym).(locked := acct.Pos(sym).locked - qty), qty);
  }

  lemma CostAfterSaleOk(p: Position, qty: real)
    requires p.avail >= 0.0 && p.locked >= 0.0 && p.cost >= 0.0 && qty > 0.0
    ensures CostOk(p.(cost := CostAfterSale(p, qty)))
  {
    if p.Total() > 0.0 { CostPerShareKept(p, qty); }
  }

  /** The account after the SELL leg, field by field. */
  lemma SellLegFields(acct: Account, id: OrderId, sym: Symbol, price: real, qty: real)
    requires id in acct.locks && acct.locks[id].cash == 0.0 && qty <= acct.locks[id].qty
    ensures var x := SellLeg(acct, id, sym, price, qty);
      var p := acct.Pos(sym).(locked := acct.Pos(sym).locked - qty);
      && x.cashAvail == acct.cashAvail + Value(price, qty) && x.cashLocked == acct.cashLocked
      && x.Pos(sym) == p.(cost := CostAfterSale(p, qty))
      && (forall s :: s != sym ==> x.Pos(s) == acct.Pos(s))
      && x.locks == if acct.locks[id].qty == qty then acct.locks - {id}
                    else acct.locks[id := acct.locks[id].(qty := acct.locks[id].qty - qty)]
  {
    hide Value, CostAfterSale;
  }

  lemma SellLegKeepsBalance(acct: Account, id: OrderId, sym: Symbol, price: real, qty: real)
    requires Balanced(acct) && id in acct.locks
    requires acct.locks[id].side == Sell && acct.locks[id].symbol == sym && acct.locks[id].cash == 0.0
    requires price >= 0.0 && 0.0 < qty <= acct.locks[id].qty
    ensures Balanced(SellLeg(acct, id, sym, price, qty))
    ensures SellLeg(acct, id, sym, price, qty).locks ==
      if acct.locks[id].qty == qty then acct.locks - {id}
      else acct.locks[id := acct.locks[id].(qty := acct.locks[id].qty - qty)]
  {
    hide *;
    SellLegFields(acct, id, sym, price, qty);
    var p := acct.Pos(sym).(locked := acct.Pos(sym).locked - qty);
    ValueNonNegative(price, qty);
    SoldBasisOk(acct, id, sym, qty);
    LegSells(acct, id, sym, price, qty);
    SoldBalances(acct, id, sym, qty, Value(price, qty), SellLeg(acct, id, sym, price, qty));
  }

  lemma SoldBasisOk(acct: Account, id: OrderId, sym: Symbol, qty: real)
    requires Balanced(acct) && id in acct.locks && acct.locks[id].side == Sell && acct.locks[id].symbol == sym
    requires 0.0 < qty <= acct.locks[id].qty
    ensures var p := acct.Pos(sym).(locked := acct.Pos(sym).locked - qty);
      CostOk(p.(cost := CostAfterSale(p, qty)))
  {
    hide CostAfterSale;
    ReserveBound(acct, Shares(sym), id);
    assert AssetOk(Shares(sym), acct);
    var p := acct.Pos(sym);
    assert CostOk(p);
    CostAfterSaleOk(p.(locked := p.locked - qty), qty);
  }

  /** An account that gave shares for cash and reduced the lock it held them under. */
  ghost predicate Sold(acct: Account, id: OrderId, sym: Symbol, qty: real, cash: real, acct': Account) {
    && id in acct.locks && acct.locks[id].side == Sell && acct.locks[id].symbol == sym && acct.locks[id].cash == 0.0
    && cash >= 0.0 && 0.0 < qty <= acct.locks[id].qty
    && acct'.cashAvail == acct.cashAvail + cash && acct'.cashLocked == acct.cashLocked
    && acct'.Pos(sym).avail == acct.Pos(sym).avail && acct'.Pos(sym).locked == acct.Pos(sym).locked - qty
    && (forall s :: s != sym ==> acct'.Pos(s) == acct.Pos(s))
    && acct'.locks == if acct.locks[id].qty == qty then acct.locks - {id}
                      else acct.locks[id := acct.locks[id].(qty := acct.locks[id].qty - qty)]
  }

  lemma LegSells(acct: Account, id: OrderId, sym: Symbol, price: real, qty: real)
    requires id in acct.locks && acct.locks[id].side == Sell && acct.locks[id].symbol == sym
    requires acct.locks[id].cash == 0.0 && 0.0 < qty <= acct.locks[id].qty && Value(price, qty) >= 0.0
    ensures Sold(acct, id, sym, qty, Value(price, qty), SellLeg(acct, id, sym, price, qty))
  {
    hide Value, SellLeg, CostAfterSale;
    SellLegFields(acct, id, sym, price, qty);
  }

  lemma SoldAsset(acct: Account, id: OrderId, sym: Symbol, qty: real, cash: real, acct': Account, asset: Asset)
    requires Sold(acct, id, sym, qty, cash, acct') && AssetOk(asset, acct)
    ensures AssetOk(asset, acct')
  {
    var k := acct.locks[id];
    if k.qty == qty { ReservedRemove(asset, acct.locks, id); }
    else { ReservedSet(asset, acct.locks, id, k.(qty := k.qty - qty)); }
    hide Reserved;
  }

  lemma SoldBalances(acct: Account, id: OrderId, sym: Symbol, qty: real, cash: real, acct': Account)
    requires Balanced(acct) && Sold(acct, id, sym, qty, cash, acct') && CostOk(acct'.Pos(sym))
    ensures Balanced(acct')
  {
    hide AssetOk;
    forall asset ensures AssetOk(asset, acct') {
      assert AssetOk(asset, acct);
      SoldAsset(acct, id, sym, qty, cash, acct', asset);
    }
    forall s ensures CostOk(acct'.Pos(s)) { assert CostOk(acct.Pos(s)); }
  }

  /** Between two different accounts a settlement is one leg each. */
  lemma SettleApart(l: Accounts, b: AccountId, s: AccountId, bid: OrderId, sid: OrderId, sym: Symbol, price: real,
                    qty: real)
    requires b != s
    ensures Settle(l, b, s, bid, sid, sym, price, qty).Get(b) == BuyLeg(l.Get(b), bid, sym, price, qty)
    ensures Settle(l, b, s, bid, sid, sym, price, qty).Get(s) == SellLeg(l.Get(s), sid, sym, price, qty)
  {
    hide BuyLeg, SellLeg;
  }

  /** An account that settles with itself goes through both. */
  lemma SettleSelf(l: Accounts, a: AccountId, bid: OrderId, sid: OrderId, sym: Symbol, price: real, qty: real)
    ensures Settle(l, a, a, bid, sid, sym, price, qty).Get(a)
      == SellLeg(BuyLeg(l.Get(a), bid, sym, price, qty), sid, sym, price, qty)
  {
    hide BuyLeg, SellLeg;
  }

  /** A deposit, or a withdrawal the account can afford. */
  lemma CashChangeKeepsBalance(acct: Account, cash: real)
    requires Balanced(acct) && cash >= 0.0
    ensures Balanced(acct.(cashAvail := cash))
  {
    var acct' := acct.(cashAvail := cash);
    forall asset ensures AssetOk(asset, acct') { assert AssetOk(asset, acct); }
    forall s ensures CostOk(acct'.Pos(s)) { assert CostOk(acct.Pos(s)); }
  }

  lemma SeedKeepsBalance(l: Accounts, a: AccountId, sym: Symbol, qty: real)
    requires Balanced(l.Get(a)) && qty > 0.0
    ensures Balanced(Seed(l, a, sym, qty).Get(a))
  {
    var acct := l.Get(a);
    SeedIs(l, a, sym, qty);
    SharesInKeepBalance(acct, sym, qty);
  }

  lemma SeedIs(l: Accounts, a: AccountId, sym: Symbol, qty: real)
    ensures var acct := l.Get(a);
      Seed(l, a, sym, qty).Get(a) == acct.SetPos(sym, acct.Pos(sym).(avail := acct.Pos(sym).avail + qty))
  {
  }

  lemma SharesInKeepBalance(acct: Account, sym: Symbol, qty: real)
    requires Balanced(acct) && qty > 0.0
    ensures Balanced(acct.SetPos(sym, acct.Pos(sym).(avail := acct.Pos(sym).avail + qty)))
  {
    var acct' := acct.SetPos(sym, acct.Pos(sym).(avail := acct.Pos(sym).avail + qty));
    forall asset ensures AssetOk(asset, acct') { assert AssetOk(asset, acct); }
    BalancedNonNegative(acct, Shares(sym));
    forall s ensures CostOk(acct'.Pos(s)) { assert CostOk(acct.Pos(s)); }
  }
}

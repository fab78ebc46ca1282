/** What a settlement does to the cost basis of both sides. */
module CostBasis {
  import opened Domain
  import opened Ledger
  import opened LedgerLaws

  /** A lock of a SELL order on the symbol that covers the quantity. */
  predicate SellLock(x: Account, id: OrderId, sym: Symbol, qty: real) {
    && id in x.locks && x.locks[id].side == Sell && x.locks[id].symbol == sym && x.locks[id].cash == 0.0
    && 0.0 < qty <= x.locks[id].qty
  }

  lemma BuyLegPosition(x: Account, id: OrderId, sym: Symbol, price: real, qty: real)
    ensures var p := x.Pos(sym);
      BuyLeg(x, id, sym, price, qty).Pos(sym) == Position(p.avail + qty, p.locked, p.cost + Value(price, qty))
  {
    hide Value;
  }

  /**
   * Between two different accounts: the seller's cost per share stays what it was, and the buyer's basis grows by
   * exactly what it paid.
   */
  lemma {:induction false} SettlementCosts(l: Accounts, b: AccountId, s: AccountId, bid: OrderId, sid: OrderId,
                                           sym: Symbol, price: real, qty: real)
    requires b != s && Balanced(l.Get(s)) && SellLock(l.Get(s), sid, sym, qty)
    ensures var l' := Settle(l, b, s, bid, sid, sym, price, qty);
      var p, p' := l.Get(b).Pos(sym), l'.Get(b).Pos(sym);
      var q, q' := l.Get(s).Pos(sym), l'.Get(s).Pos(sym);
      && q'.Total() == q.Total() - qty && SameCostPerShare(q, q')
      && p'.Total() == p.Total() + qty && p'.cost == p.cost + Value(price, qty)
  {
    hide Settle, BuyLeg, SellLeg, Balanced, SameCostPerShare, Value;
    SettleApart(l, b, s, bid, sid, sym, price, qty);
    BuyLegPosition(l.Get(b), bid, sym, price, qty);
    SaleKeepsCostPerShare(l.Get(s), sid, sym, price, qty);
  }

  // ---------- trading with oneself ----------

  /**
   * The basis afterwards is the weighted mean: the cost per share moves towards the price, strictly but without
   * reaching it, and stays exactly if it was the price.
   */
  predicate Averaged(cost: real, total: real, price: real, qty: real, cost': real) {
    && cost' * (total + qty) == (cost + Value(price, qty)) * total
    && (cost == Value(price, total) ==> cost' == cost)
    && (cost < Value(price, total) ==> cost < cost' < Value(price, total))
    && (cost > Value(price, total) ==> Value(price, total) < cost' < cost)
  }

  lemma SelfSale(p: Position, price: real, qty: real)
    requires p.Total() > 0.0 && qty > 0.0
    ensures Averaged(p.cost - Value(price, qty), p.Total(), price, qty, CostAfterSale(p, qty))
  {
    var total, cost, cost' := p.Total(), p.cost - Value(price, qty), CostAfterSale(p, qty);
    CostPerShareKept(p, qty);
    var sum, gap := total + qty, Value(price, total) - cost;
    assert (cost' - cost) * sum == qty * gap;
    assert (Value(price, total) - cost') * sum == total * gap;
    hide CostAfterSale;
    Signs(cost' - cost, sum, qty, gap);
    Signs(Value(price, total) - cost', sum, total, gap);
  }

  /** Two products with positive factors are equal: what is left has the same sign. */
  lemma Signs(x: real, a: real, b: real, y: real)
    requires a > 0.0 && b > 0.0 && x * a == b * y
    ensures (x > 0.0 <==> y > 0.0) && (x < 0.0 <==> y < 0.0)
  {
    if x > 0.0 { assert x * a > 0.0; }
    if x < 0.0 { assert -x * a > 0.0; }
    if y > 0.0 { assert b * y > 0.0; }
    if y < 0.0 { assert b * -y > 0.0; }
  }

  lemma BuyLegLeavesLock(x: Account, id: OrderId, other: OrderId, sym: Symbol, price: real, qty: real)
    requires other in x.locks && other != id
    ensures var y := BuyLeg(x, id, sym, price, qty); other in y.locks && y.locks[other] == x.locks[other]
  {
    hide Value;
  }

  /** The position of an account that trades with itself. */
  lemma {:induction false} SelfTradePosition(l: Accounts, a: AccountId, bid: OrderId, sid: OrderId, sym: Symbol,
                                             price: real, qty: real)
    requires SellLock(l.Get(a), sid, sym, qty) && bid != sid
    ensures var p := l.Get(a).Pos(sym);
      var moved := Position(p.avail + qty, p.locked - qty, p.cost + Value(price, qty));
      Settle(l, a, a, bid, sid, sym, price, qty).Get(a).Pos(sym) == moved.(cost := CostAfterSale(moved, qty))
  {
    hide Settle, BuyLeg, SellLeg, Value, CostAfterSale;
    var x := l.Get(a);
    SettleSelf(l, a, bid, sid, sym, price, qty);
    BuyLegLeavesLock(x, bid, sid, sym, price, qty);
    BuyLegPosition(x, bid, sym, price, qty);
    SellLegFields(BuyLeg(x, bid, sym, price, qty), sid, sym, price, qty);
  }

  lemma HoldsWhatIsLocked(x: Account, id: OrderId, sym: Symbol, qty: real)
    requires Balanced(x) && SellLock(x, id, sym, qty)
    ensures x.Pos(sym).Total() > 0.0
  {
    assert AssetOk(Shares(sym), x);
    ReserveBound(x, Shares(sym), id);
  }

  /** An account that trades with itself holds as many shares as before, and their cost moves towards the price. */
  lemma {:induction false} SelfTradeCosts(l: Accounts, a: AccountId, bid: OrderId, sid: OrderId, sym: Symbol,
                                          price: real, qty: real)
    requires Balanced(l.Get(a)) && SellLock(l.Get(a), sid, sym, qty) && bid != sid
    ensures var p, p' := l.Get(a).Pos(sym), Settle(l, a, a, bid, sid, sym, price, qty).Get(a).Pos(sym);
      p'.Total() == p.Total() > 0.0 && Averaged(p.cost, p.Total(), price, qty, p'.cost)
  {
    hide Settle, Balanced, Averaged, CostAfterSale, Value;
    HoldsWhatIsLocked(l.Get(a), sid, sym, qty);
    SelfTradePosition(l, a, bid, sid, sym, price, qty);
    var p := l.Get(a).Pos(sym);
    SelfSale(Position(p.avail + qty, p.locked - qty, p.cost + Value(price, qty)), price, qty);
  }
}

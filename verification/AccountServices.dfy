/** The service that owns all accounts, creates them on demand and settles trades between them. */
module AccountServices {
  import opened Domain
  import opened Ledger
  import opened AccountRecords

  class AccountService {
    var table: map<AccountId, AccountRecord>
    var ids: seq<AccountId>
    ghost var Repr: set<object>

    constructor ()
      ensures Valid() && fresh(Repr) && View() == NO_ACCOUNTS
    {
      table, ids, Repr := map[], [], {this};
    }

    ghost predicate Valid()
      reads this, Repr
      ensures Valid() ==> this in Repr
    {
      && this in Repr
      && (forall a :: a in table ==> table[a] in Repr && table[a].Repr <= Repr && this !in table[a].Repr)
      && (forall a :: a in table ==> table[a].Valid() && table[a].id == a)
      && (forall a, b :: a in table && b in table && a != b ==> table[a].Repr !! table[b].Repr)
    }

    ghost function View(): Accounts
      requires Valid()
      reads this, Repr
    {
      Accounts(ids, map a | a in table :: table[a].View())
    }

    method GetOrCreate(a: AccountId) returns (acct: AccountRecord)
      requires Valid()
      modifies this
      ensures Valid() && a in table && acct == table[a]
      ensures View() == old(View()).Put(a, old(View()).Get(a))
      ensures forall b :: b in old(table) ==> b in table && table[b] == old(table)[b]
      ensures fresh(Repr - old(Repr)) && old(Repr) <= Repr
    {
      if a !in table {
        CreateAccount(a);
      }
      acct := table[a];
    }

    method CreateAccount(a: AccountId)
      requires Valid() && a !in table
      modifies this
      ensures Valid() && table.Keys == old(table).Keys + {a}
      ensures forall b :: b in old(table) ==> table[b] == old(table)[b]
      ensures View() == old(View()).Put(a, NEW_ACCOUNT)
      ensures fresh(Repr - old(Repr)) && old(Repr) <= Repr
    {
      var created := new AccountRecord(a);
      table := table[a := created];
      ids := ids + [a];
      Repr := Repr + {created} + created.Repr;
      AccountAdded(a);
    }

    method DeleteAccount(a: AccountId) returns (existed: bool)
      requires Valid()
      modifies this`table, this`ids
      ensures Valid() && View() == old(View()).Drop(a) && existed == (a in old(View()).table)
    {
      hide AccountRecord.View, AccountRecord.Valid, Without;
      existed := a in table;
      table, ids := table - {a}, Without(ids, a);
      AccountDropped(a);
    }

    twostate lemma AccountDropped(a: AccountId)
      requires old(Valid()) && table == old(table) - {a} && ids == Without(old(ids), a) && Repr == old(Repr)
      requires forall o :: o in old(Repr) && o != this ==> unchanged(o)
      ensures Valid() && View() == old(View()).Drop(a)
    {
      hide *;
      DroppedIsValid(a);
      DroppedKept(a);
      DropMade(old(View()), View(), a);
    }

    twostate lemma DroppedKept(a: AccountId)
      requires old(Valid()) && Valid() && table == old(table) - {a} && ids == Without(old(ids), a)
      requires Repr == old(Repr) && forall o :: o in old(Repr) && o != this ==> unchanged(o)
      ensures View().ids == Without(old(View()).ids, a) && View().table.Keys == old(View()).table.Keys - {a}
      ensures forall b :: b in View().table ==> b in old(View()).table && View().table[b] == old(View()).table[b]
    {
      hide AccountRecord.Valid, Without;
      forall b | b in table ensures table[b].View() == old(table[b].View()) {
        assert table[b] == old(table)[b] && unchanged(table[b]);
      }
    }

    twostate lemma DroppedIsValid(a: AccountId)
      requires old(Valid()) && table == old(table) - {a} && Repr == old(Repr)
      requires forall o :: o in old(Repr) && o != this ==> unchanged(o)
      ensures Valid() && forall b :: b in table ==> b in old(table) && table[b] == old(table)[b] && table[b].Valid()
    {
      hide AccountRecord.View, AccountRecord.Valid;
      assert forall b :: b in table ==> table[b] == old(table)[b] && unchanged(table[b]);
      forall b | b in table ensures table[b].Valid() {}
    }

    twostate lemma AccountAdded(a: AccountId)
      requires old(Valid()) && a !in old(table) && a in table && table == old(table)[a := table[a]]
      requires fresh(table[a].Repr) && table[a].Valid() && table[a].id == a && table[a].View() == NEW_ACCOUNT
      requires this !in table[a].Repr
      requires ids == old(ids) + [a] && Repr == old(Repr) + {table[a]} + table[a].Repr
      requires forall o :: o in old(Repr) && o != this ==> unchanged(o)
      ensures Valid() && View() == old(View()).Put(a, NEW_ACCOUNT)
    {
      hide *;
      AddedKept(a);
      PutNew(old(View()), View(), a);
    }

    twostate lemma AddedKept(a: AccountId)
      requires old(Valid()) && a !in old(table) && a in table && table == old(table)[a := table[a]]
      requires fresh(table[a].Repr) && table[a].Valid() && table[a].id == a && table[a].View() == NEW_ACCOUNT
      requires this !in table[a].Repr
      requires ids == old(ids) + [a] && Repr == old(Repr) + {table[a]} + table[a].Repr
      requires forall o :: o in old(Repr) && o != this ==> unchanged(o)
      ensures Valid() && View().ids == old(View()).ids + [a] && View().table.Keys == old(View()).table.Keys + {a}
      ensures a !in old(View()).table && View().table[a] == NEW_ACCOUNT
      ensures forall b :: b in old(View()).table ==> View().table[b] == old(View()).table[b]
    {
      AddedIsValid(a);
      hide Valid, AccountRecord.Valid;
      forall b | b in old(table) ensures table[b].View() == old(table[b].View()) {
        assert table[b] == old(table)[b] && unchanged(table[b]);
      }
    }

    twostate lemma AddedIsValid(a: AccountId)
      requires old(Valid()) && a !in old(table) && a in table && table == old(table)[a := table[a]]
      requires fresh(table[a].Repr) && table[a].Valid() && table[a].id == a && table[a].View() == NEW_ACCOUNT
      requires this !in table[a].Repr
      requires ids == old(ids) + [a] && Repr == old(Repr) + {table[a]} + table[a].Repr
      requires forall o :: o in old(Repr) && o != this ==> unchanged(o)
      ensures Valid()
    {
      hide AccountRecord.View;
      assert forall b :: b in old(table) ==> table[b] == old(table)[b] && unchanged(table[b]);
      forall b | b in old(table) ensures table[b].Valid() {}
    }

    /** Of all accounts at most these two (which may be one) changed, and what they gained is new. */
    twostate predicate OnlyMoved(new a: AccountId, new b: AccountId)
      requires old(Valid())
      reads *
    {
      && table == old(table) && ids == old(ids) && a in table && b in table
      && Repr == old(Repr) + table[a].Repr + table[b].Repr && (a != b ==> table[a].Repr !! table[b].Repr)
      && (forall x :: x in {a, b} ==>
        fresh(table[x].Repr - old(table[x].Repr)) && table[x].Valid() && this !in table[x].Repr)
      && forall o :: o in old(Repr) && o !in old(table[a].Repr) && o !in old(table[b].Repr) && o != this ==>
        unchanged(o)
    }

    twostate lemma OthersKept(new a: AccountId, new b: AccountId, new c: AccountId)
      requires old(Valid()) && OnlyMoved(a, b) && c in table && c != a && c != b
      ensures table[c].Repr == old(table[c].Repr) && table[c].Valid() && table[c].View() == old(table[c].View())
      ensures table[c].Repr !! table[a].Repr && table[c].Repr !! table[b].Repr
    {
      assert table[c] in old(table[c].Repr) && unchanged(table[c]);
      assert forall sym :: sym in table[c].positions ==> unchanged(table[c].positions[sym]);
    }

    twostate lemma StillValid(new a: AccountId, new b: AccountId)
      requires old(Valid()) && OnlyMoved(a, b)
      ensures Valid()
    {
      forall c | c in table
        ensures table[c] in Repr && table[c].Repr <= Repr && this !in table[c].Repr && table[c].Valid() &&
        table[c].id == c {
        if c != a && c != b { OthersKept(a, b, c); }
      }
      forall c, d | c in table && d in table && c != d ensures table[c].Repr !! table[d].Repr {
        if c != a && c != b { OthersKept(a, b, c); }
        if d != a && d != b { OthersKept(a, b, d); }
      }
    }

    twostate lemma AllOthersKept(new a: AccountId, new b: AccountId)
      requires old(Valid()) && OnlyMoved(a, b)
      ensures Valid() && table == old(table) && ids == old(ids) && a in table && b in table
      ensures fresh(Repr - old(Repr)) && old(Repr) <= Repr
      ensures View().ids == old(View()).ids && View().table.Keys == old(View()).table.Keys == table.Keys
      ensures forall c :: c in table ==>
        View().table[c] == if c == a || c == b then table[c].View() else old(View()).table[c]
    {
      StillValid(a, b);
      forall c | c in table && c != a && c != b ensures table[c].View() == old(table[c].View()) { OthersKept(a, b, c); }
    }

    /** After these accounts changed, the view changed in those places. */
    twostate lemma AccountsMoved(new a: AccountId, new b: AccountId)
      requires old(Valid()) && OnlyMoved(a, b)
      ensures Valid() && View() == old(View()).Put(a, table[a].View()).Put(b, table[b].View())
      ensures fresh(Repr - old(Repr)) && old(Repr) <= Repr
    {
      hide *;
      AllOthersKept(a, b);
      PutPut(old(View()), View(), a, b);
    }

    /** The same when there is only one. */
    twostate lemma AccountMoved(new a: AccountId)
      requires old(Valid()) && OnlyMoved(a, a)
      ensures Valid() && View() == old(View()).Put(a, table[a].View())
      ensures fresh(Repr - old(Repr)) && old(Repr) <= Repr
    {
      hide OnlyMoved, Valid;
      AccountsMoved(a, a);
    }

    method LockFunds(a: AccountId, id: OrderId, sym: Symbol, side: Side, qty: real, price: Option<real>)
      returns (rejected: Option<Reason>)
      requires Valid()
      modifies Repr
      ensures Valid() && fresh(Repr - old(Repr)) && old(Repr) <= Repr
      ensures LockResult(View(), rejected) == Ledger.LockFunds(old(View()), a, id, sym, side, qty, price)
    {
      hide LockIn, Valid, View, AccountRecord.View;
      ghost var l := View();
      var acct := GetOrCreate(a);
      Owns(a, a);
      label Got:
      ghost var x := acct.View();
      rejected := acct.LockOrder(id, sym, side, qty, price);
      Repr := Repr + acct.Repr;
      AccountMoved@Got(a);
      assert x == l.Get(a);
      TouchThenPut(l, a, acct.View());
    }

    method UnlockFunds(a: AccountId, id: OrderId)
      requires Valid()
      modifies Repr
      ensures Valid() && fresh(Repr - old(Repr)) && old(Repr) <= Repr
      ensures View() == Unlock(old(View()), a, id)
    {
      hide Release, Valid, View, AccountRecord.View;
      ghost var l := View();
      var acct := GetOrCreate(a);
      Owns(a, a);
      label Got:
      ghost var x := acct.View();
      acct.ReleaseLock(id);
      Repr := Repr + acct.Repr;
      AccountMoved@Got(a);
      assert x == l.Get(a);
      TouchThenPut(l, a, acct.View());
    }

    method DepositTo(a: AccountId, amount: real)
      requires Valid()
      modifies Repr
      ensures Valid() && fresh(Repr - old(Repr)) && old(Repr) <= Repr
      ensures View() == Deposit(old(View()), a, amount)
    {
      hide Ledger.Deposit, Valid, View;
      ghost var l := View();
      var acct := GetOrCreate(a);
      Owns(a, a);
      label Got:
      ghost var x := acct.View();
      acct.Deposit(amount);
      Repr := Repr + acct.Repr;
      AccountMoved@Got(a);
      assert x == l.Get(a);
      DepositPuts(l, a, amount, acct.View());
    }

    method ListIds() returns (list: seq<AccountId>)
      requires Valid()
      ensures list == View().ids
    {
      list := ids;
    }

    /** Whether a known account holds a lock for an order. */
    method HoldsLock(a: AccountId, id: OrderId) returns (held: bool)
      requires Valid() && a in View().table
      ensures held <==> id in View().Get(a).locks
    {
      held := id in table[a].orderLocks;
    }

    /** Whether an account, created if need be, has less than this to withdraw. */
    method Lacks(a: AccountId, amount: real) returns (short: bool)
      requires Valid()
      modifies Repr
      ensures Valid() && fresh(Repr - old(Repr)) && old(Repr) <= Repr
      ensures View() == old(View()).Put(a, old(View()).Get(a))
      ensures short <==> old(View()).Get(a).cashAvail < amount
    {
      var acct := GetOrCreate(a);
      short := acct.cashAvailable < amount;
      assert acct.View() == View().Get(a);
    }

    method WithdrawFrom(a: AccountId, amount: real) returns (error: Option<Error>)
      requires Valid()
      modifies Repr
      ensures Valid() && fresh(Repr - old(Repr)) && old(Repr) <= Repr
      ensures error.None? ==> Done(View()) == Withdraw(old(View()), a, amount)
      ensures error.Some? ==>
        Withdraw(old(View()), a, amount) == Raised(error.value) && View() == old(View()).Put(a, old(View()).Get(a))
    {
      hide Valid, View, AccountRecord.View;
      ghost var l := View();
      var acct := GetOrCreate(a);
      Owns(a, a);
      label Got:
      ghost var x := acct.View();
      error := acct.Withdraw(amount);
      Repr := Repr + acct.Repr;
      AccountMoved@Got(a);
      assert x == l.Get(a);
      TouchThenPut(l, a, acct.View());
    }

    method SeedShares(a: AccountId, sym: Symbol, qty: real)
      requires Valid()
      modifies Repr
      ensures Valid() && fresh(Repr - old(Repr)) && old(Repr) <= Repr
      ensures View() == Seed(old(View()), a, sym, qty)
    {
      hide Seed, SharesReceived, Valid, View;
      ghost var l := View();
      var acct := GetOrCreate(a);
      Owns(a, a);
      label Got:
      ghost var x := acct.View();
      acct.ReceiveShares(sym, qty, 0.0);
      Repr := Repr + acct.Repr;
      AccountMoved@Got(a);
      assert x == l.Get(a);
      SeedPuts(l, a, sym, qty, acct.View());
    }

    method LoadAccount(saved: SavedAccount)
      requires Valid()
      modifies Repr
      ensures Valid() && fresh(Repr - old(Repr)) && old(Repr) <= Repr
      ensures View() == old(View()).Put(saved.id, TakeOver(old(View()).Get(saved.id), saved))
    {
      hide Valid, View, TakeOver, PositionRecord.View;
      ghost var l := View();
      var a := saved.id;
      var acct := GetOrCreate(a);
      Owns(a, a);
      label Got:
      acct.FromSnapshot(saved);
      Repr := Repr + acct.Repr;
      AccountMoved@Got(a);
      TouchThenPut(l, a, acct.View());
    }

    /** Settlement against the market touches one account and drops the order's lock. */
    method SettleMarketTrade(a: AccountId, id: OrderId, sym: Symbol, side: Side, price: real, qty: real)
      returns (error: Option<Error>)
      requires Valid()
      modifies Repr
      ensures Valid() && fresh(Repr - old(Repr)) && old(Repr) <= Repr
      ensures error == if SettleableOnMarket(old(View()).Get(a), sym, side, qty) then None else Some(DivisionByZero)
      ensures error.None? ==> View() == SettleMarket(old(View()), a, id, sym, side, price, qty)
      ensures error.Some? ==> View() == old(View()).Put(a, SharesReleased(old(View()).Get(a), sym, qty))
    {
      hide MarketLeg, Valid, View, AccountRecord.View;
      ghost var l := View();
      var acct := GetOrCreate(a);
      Owns(a, a);
      label Got:
      ghost var x := acct.View();
      error := acct.SettleMarket(id, sym, side, price, qty);
      Repr := Repr + acct.Repr;
      AccountMoved@Got(a);
      assert x == l.Get(a);
      TouchThenPut(l, a, acct.View());
    }

    /** Cash goes from the buyer's locked part to the seller, shares from the seller's locked part to the buyer. */
    method SettleTrade(b: AccountId, s: AccountId, buyId: OrderId, sellId: OrderId, sym: Symbol, price: real, qty: real)
      returns (error: Option<Error>)
      requires Valid()
      modifies Repr
      ensures Valid() && fresh(Repr - old(Repr)) && old(Repr) <= Repr
      ensures error == if Settleable(old(View()), b, s, sym, qty) then None else Some(DivisionByZero)
      ensures error.None? ==> View() == Settle(old(View()), b, s, buyId, sellId, sym, price, qty)
      ensures error.Some? ==> View() == Served(old(View()), b, s, sym, price, qty)
    {
      hide Settle, SettleExisting, ServeExisting, Reducible, Valid, View;
      ghost var l0 := View();
      var buyer := GetOrCreate(b);
      ghost var l1 := View();
      var seller := GetOrCreate(s);
      error := SettleBetween(b, s, buyId, sellId, sym, price, qty);
      SettleCreates(l0, b, s, buyId, sellId, sym, price, qty);
    }

    /** What validity says about two accounts. */
    lemma Owns(a: AccountId, b: AccountId)
      requires Valid() && a in table && b in table
      ensures forall x :: x in {a, b} ==>
        && table[x].Valid() && table[x].Repr <= Repr && this !in table[x].Repr
        && x in View().table && table[x].View() == View().Get(x)
      ensures a != b ==> table[a] != table[b] && table[a].Repr !! table[b].Repr
    {
      assert table[a].id == a && table[b].id == b;
    }

    /** The settlement once both accounts exist. */
    method SettleBetween(b: AccountId, s: AccountId, buyId: OrderId, sellId: OrderId, sym: Symbol, price: real,
                         qty: real)
      returns (error: Option<Error>)
      requires Valid() && b in table && s in table
      modifies Repr
      ensures Valid() && fresh(Repr - old(Repr)) && old(Repr) <= Repr
      ensures error == if Settleable(old(View()), b, s, sym, qty) then None else Some(DivisionByZero)
      ensures error.None? ==> View() == SettleExisting(old(View()), b, s, buyId, sellId, sym, price, qty)
      ensures error.Some? ==> View() == ServeExisting(old(View()), b, s, sym, price, qty)
    {
      hide BuyLeg, SellLeg, BuyerServed, SellerServed, SettleExisting, ServeExisting, Reducible, Valid, View,
        AccountRecord.View;
      ghost var l := View();
      var buyer, seller := table[b], table[s];
      Owns(b, s);
      if qty >= 0.0 { OnlyNegativeDivides(l.Get(s).Pos(sym), qty, b == s); }
      error := SettleRecords(buyer, seller, buyId, sellId, sym, price, qty);
      Repr := Repr + buyer.Repr + seller.Repr;
      AccountsMoved(b, s);
      if error.None? {
        SettleExistingIs(l, b, s, buyId, sellId, sym, price, qty, buyer.View(), seller.View());
      } else {
        ServeExistingIs(l, b, s, sym, price, qty, buyer.View(), seller.View());
      }
    }
  }

  function ServeExisting(l: Accounts, b: AccountId, s: AccountId, sym: Symbol, price: real, qty: real): Accounts {
    var l1 := l.Put(s, SellerServed(l.Get(s), sym, price, qty));
    l1.Put(b, BuyerServed(l1.Get(b), sym, price, qty))
  }

  /**
   * What a settlement that divides by zero leaves behind: cash and shares have moved, cost basis and locks have not.
   */
  function Served(l: Accounts, b: AccountId, s: AccountId, sym: Symbol, price: real, qty: real): Accounts {
    var l1 := l.Put(b, l.Get(b));
    ServeExisting(l1.Put(s, l1.Get(s)), b, s, sym, price, qty)
  }

  lemma ServedOnce(l: Accounts, b: AccountId, s: AccountId, sym: Symbol, price: real, qty: real)
    ensures var l1 := l.Put(b, l.Get(b));
      Served(l1.Put(s, l1.Get(s)), b, s, sym, price, qty) == Served(l, b, s, sym, price, qty)
  {
    hide BuyerServed, SellerServed;
  }

  lemma ServeExistingIs(l: Accounts, b: AccountId, s: AccountId, sym: Symbol, price: real, qty: real,
                        x: Account, y: Account)
    requires b != s ==> x == BuyerServed(l.Get(b), sym, price, qty) && y == SellerServed(l.Get(s), sym, price, qty)
    requires b == s ==> x == y == BuyerServed(SellerServed(l.Get(b), sym, price, qty), sym, price, qty)
    requires b in l.table && s in l.table
    ensures l.Put(b, x).Put(s, y) == ServeExisting(l, b, s, sym, price, qty)
  {
    hide BuyerServed, SellerServed;
  }

  lemma SettleExistingIs(l: Accounts, b: AccountId, s: AccountId, buyId: OrderId, sellId: OrderId,
                         sym: Symbol, price: real, qty: real, x: Account, y: Account)
    requires b != s ==> x == BuyLeg(l.Get(b), buyId, sym, price, qty) && y == SellLeg(l.Get(s), sellId, sym, price, qty)
    requires b == s ==> x == y == SellLeg(BuyLeg(l.Get(b), buyId, sym, price, qty), sellId, sym, price, qty)
    ensures l.Put(b, x).Put(s, y) == SettleExisting(l, b, s, buyId, sellId, sym, price, qty)
  {
    hide BuyLeg, SellLeg;
  }

  function SettleExisting(l: Accounts, b: AccountId, s: AccountId, buyId: OrderId, sellId: OrderId,
                          sym: Symbol, price: real, qty: real): Accounts {
    var l1 := l.Put(b, BuyLeg(l.Get(b), buyId, sym, price, qty));
    l1.Put(s, SellLeg(l1.Get(s), sellId, sym, price, qty))
  }

  lemma SettleCreates(l: Accounts, b: AccountId, s: AccountId, buyId: OrderId, sellId: OrderId, sym: Symbol,
                      price: real, qty: real)
    ensures var l1 := l.Put(b, l.Get(b));
      Settle(l, b, s, buyId, sellId, sym, price, qty)
        == SettleExisting(l1.Put(s, l1.Get(s)), b, s, buyId, sellId, sym, price, qty)
  {
  }

  /** Two states that differ in two known accounts only. */
  lemma PutPut(l: Accounts, m: Accounts, a: AccountId, b: AccountId)
    requires l.ids == m.ids && l.table.Keys == m.table.Keys && a in m.table && b in m.table
    requires forall c :: c in m.table && c != a && c != b ==> m.table[c] == l.table[c]
    ensures m == l.Put(a, m.table[a]).Put(b, m.table[b])
  {
    assert m.table == l.table[a := m.table[a]][b := m.table[b]];
  }

  /** Two states that differ in one new account only. */
  lemma DropMade(l: Accounts, m: Accounts, a: AccountId)
    requires m.ids == Without(l.ids, a) && m.table.Keys == l.table.Keys - {a}
    requires forall b :: b in m.table ==> b in l.table && m.table[b] == l.table[b]
    ensures m == l.Drop(a)
  {
    hide Without;
    assert m.table == l.table - {a};
  }

  lemma PutNew(l: Accounts, m: Accounts, a: AccountId)
    requires a !in l.table && m.ids == l.ids + [a] && m.table.Keys == l.table.Keys + {a} && m.table[a] == NEW_ACCOUNT
    requires forall b :: b in l.table ==> m.table[b] == l.table[b]
    ensures m == l.Put(a, NEW_ACCOUNT)
  {
    assert m.table == l.table[a := NEW_ACCOUNT];
  }

  lemma DepositPuts(l: Accounts, a: AccountId, amount: real, x: Account)
    requires x == l.Get(a).(cashAvail := l.Get(a).cashAvail + amount)
    ensures l.Put(a, l.Get(a)).Put(a, x) == Deposit(l, a, amount)
  {
  }

  lemma SeedPuts(l: Accounts, a: AccountId, sym: Symbol, qty: real, x: Account)
    requires x == SharesReceived(l.Get(a), sym, qty, 0.0)
    ensures l.Put(a, l.Get(a)).Put(a, x) == Seed(l, a, sym, qty)
  {
  }

  lemma TouchThenPut(l: Accounts, a: AccountId, x: Account)
    ensures l.Put(a, l.Get(a)).Put(a, x) == l.Put(a, x)
  {
  }

  /** What the seller holds in total when the basis is reduced, apart from the buyer or the same account. */
  lemma BasisAt(x: Account, y: Account, sym: Symbol, qty: real, cost: real)
    ensures var p := SharesReleased(y.(cashAvail := y.cashAvail + cost), sym, qty).Pos(sym);
      Divisible(p.Total(), qty) == Reducible(y.Pos(sym), qty, false)
    ensures var paid := x.(cashLocked := x.cashLocked - cost, cashAvail := x.cashAvail + cost);
      var p := SharesReceived(SharesReleased(paid, sym, qty), sym, qty, cost).Pos(sym);
      Divisible(p.Total(), qty) == Reducible(x.Pos(sym), qty, true)
  {
  }

  /** What an interrupted settlement leaves behind. */
  lemma ServedSteps(x: Account, y: Account, sym: Symbol, price: real, qty: real)
    ensures var cost := Value(price, qty);
      && SharesReceived(x.(cashLocked := x.cashLocked - cost), sym, qty, cost) == BuyerServed(x, sym, price, qty)
      && var z := SharesReleased(y.(cashAvail := y.cashAvail + cost), sym, qty);
      z == SellerServed(y, sym, price, qty) == z.SetPos(sym, z.Pos(sym))
    ensures var cost := Value(price, qty);
      var z := x.(cashLocked := x.cashLocked - cost, cashAvail := x.cashAvail + cost);
      var z' := SharesReceived(SharesReleased(z, sym, qty), sym, qty, cost);
      z' == BuyerServed(SellerServed(x, sym, price, qty), sym, price, qty) == z'.SetPos(sym, z'.Pos(sym))
  {
    hide Value;
  }

  /** The statements of a settlement in their order; buyer and seller may be one object. */
  method SettleRecords(buyer: AccountRecord, seller: AccountRecord, buyId: OrderId, sellId: OrderId,
                       sym: Symbol, price: real, qty: real) returns (error: Option<Error>)
    requires forall r :: r in {buyer, seller} ==> r.Valid()
    requires buyer != seller ==> buyer.Repr !! seller.Repr
    modifies buyer.Repr, seller.Repr
    ensures forall r :: r in {buyer, seller} ==> r.Valid() && fresh(r.Repr - old(r.Repr))
    ensures buyer != seller ==> buyer.Repr !! seller.Repr
    ensures error == if Reducible(old(seller.View()).Pos(sym), qty, buyer == seller) then None else Some(DivisionByZero)
    ensures error.None? && buyer != seller ==>
      && buyer.View() == BuyLeg(old(buyer.View()), buyId, sym, price, qty)
      && seller.View() == SellLeg(old(seller.View()), sellId, sym, price, qty)
    ensures error.None? && buyer == seller ==>
      buyer.View() == SellLeg(BuyLeg(old(buyer.View()), buyId, sym, price, qty), sellId, sym, price, qty)
    ensures error.Some? && buyer != seller ==>
      && buyer.View() == BuyerServed(old(buyer.View()), sym, price, qty)
      && seller.View() == SellerServed(old(seller.View()), sym, price, qty)
    ensures error.Some? && buyer == seller ==>
      buyer.View() == BuyerServed(SellerServed(old(buyer.View()), sym, price, qty), sym, price, qty)
  {
    hide *;
    ghost var x, y := buyer.View(), seller.View();
    BuySteps(x, buyId, sym, price, qty);
    SellSteps(y, sellId, sym, price, qty);
    SelfSteps(x, buyId, sellId, sym, price, qty);
    var cost := Value(price, qty);
    buyer.PayFromLocked(cost);
    seller.Deposit(cost);
    seller.ReleaseShares(sym, qty);
    buyer.ReceiveShares(sym, qty, cost);
    BasisAt(x, y, sym, qty, cost);
    error := seller.ReduceBasis(sym, qty);
    if error.Some? {
      ServedSteps(x, y, sym, price, qty);
      return;
    }
    buyer.ReduceOrderLock(buyId, cost, 0.0);
    seller.ReduceOrderLock(sellId, 0.0, qty);
  }
}

/** Accounts as values: cash, positions, per-order locks and their settlement. */
module Ledger {
  import opened Domain
  import opened Sums

  datatype Position = Position(avail: real, locked: real, cost: real) {
    function Total(): real { avail + locked }
  }

  datatype Lock = Lock(side: Side, symbol: Symbol, cash: real, qty: real)

  datatype Account = Account(cashAvail: real, cashLocked: real,
                             positions: map<Symbol, Position>, locks: map<OrderId, Lock>) {
    /** A symbol never touched reads as an empty position. */
    function Pos(sym: Symbol): Position {
      if sym in positions then positions[sym] else NO_POSITION
    }

    function SetPos(sym: Symbol, p: Position): Account { this.(positions := positions[sym := p]) }
  }

  const NO_POSITION := Position(0.0, 0.0, 0.0)
  const NEW_ACCOUNT := Account(0.0, 0.0, map[], map[])

  /** All accounts, with the ids in order of creation. */
  datatype Accounts = Accounts(ids: seq<AccountId>, table: map<AccountId, Account>) {
    /** An account never touched reads as an empty one. */
    function Get(a: AccountId): Account { if a in table then table[a] else NEW_ACCOUNT }

    function Put(a: AccountId, acct: Account): Accounts {
      Accounts(if a in table then ids else ids + [a], table[a := acct])
    }

    function Drop(a: AccountId): Accounts { Accounts(Without(ids, a), table - {a}) }
  }

  function Without(ids: seq<AccountId>, a: AccountId): seq<AccountId> {
    if ids == [] then []
    else (if ids[0] == a then [] else [ids[0]]) + Without(ids[1..], a)
  }

  lemma {:induction false} WithoutMeans(ids: seq<AccountId>, a: AccountId)
    ensures forall b :: b in Without(ids, a) <==> b in ids && b != a
  {
    if ids != [] { WithoutMeans(ids[1..], a); }
  }

  lemma {:induction false} WithoutDistinct(ids: seq<AccountId>, a: AccountId)
    requires forall i, j :: 0 <= i < j < |ids| ==> ids[i] != ids[j]
    ensures forall i, j :: 0 <= i < j < |Without(ids, a)| ==> Without(ids, a)[i] != Without(ids, a)[j]
  {
    if ids != [] {
      WithoutDistinct(ids[1..], a);
      WithoutMeans(ids[1..], a);
      var rest := Without(ids[1..], a);
      if ids[0] != a {
        assert forall k :: 0 <= k < |rest| ==> rest[k] in ids[1..];
        assert Without(ids, a) == [ids[0]] + rest;
      } else {
        assert Without(ids, a) == rest;
      }
    }
  }

  const NO_ACCOUNTS := Accounts([], map[])

  /** What is written of an account into a snapshot. */
  datatype SavedPosition = SavedPosition(symbol: Symbol, position: Position)
  datatype SavedAccount = SavedAccount(id: AccountId, cashAvail: real, cashLocked: real, positions: seq<SavedPosition>)

  function WithPositions(m: map<Symbol, Position>, ps: seq<SavedPosition>): map<Symbol, Position> {
    if ps == [] then m else WithPositions(m, ps[..|ps| - 1])[ps[|ps| - 1].symbol := ps[|ps| - 1].position]
  }

  lemma OneMorePosition(m: map<Symbol, Position>, ps: seq<SavedPosition>, p: SavedPosition)
    ensures WithPositions(m, ps + [p]) == WithPositions(m, ps)[p.symbol := p.position]
  {
    assert (ps + [p])[..|ps|] == ps;
  }

  /** An account after it took over what was saved; positions not saved and order locks stay as they are. */
  function TakeOver(x: Account, saved: SavedAccount): Account {
    Account(saved.cashAvail, saved.cashLocked, WithPositions(x.positions, saved.positions), x.locks)
  }

  /** Accounts after a snapshot is read into them. */
  function ReadInto(l: Accounts, saved: seq<SavedAccount>): Accounts {
    if saved == [] then l
    else
      var l1, last := ReadInto(l, saved[..|saved| - 1]), saved[|saved| - 1];
      l1.Put(last.id, TakeOver(l1.Get(last.id), last))
  }

  /** What a snapshot keeps of an account: cash and the positions that hold something, but no order locks. */
  function Kept(x: Account): Account {
    Account(x.cashAvail, x.cashLocked,
      map sym | sym in x.positions && x.positions[sym].Total() > 0.0 :: x.positions[sym], map[])
  }

  /** The money a quantity is worth at a price. */
  function Value(price: real, qty: real): real { price * qty }

  // ---------- operations ----------

  function Deposit(l: Accounts, a: AccountId, amount: real): Accounts {
    l.Put(a, l.Get(a).(cashAvail := l.Get(a).cashAvail + amount))
  }

  function Withdraw(l: Accounts, a: AccountId, amount: real): Outcome<Accounts> {
    if l.Get(a).cashAvail < amount then Raised(CashShortfall)
    else Done(l.Put(a, l.Get(a).(cashAvail := l.Get(a).cashAvail - amount)))
  }

  /** Hand shares to an account without any cost basis. */
  function Seed(l: Accounts, a: AccountId, sym: Symbol, qty: real): Accounts {
    var acct := l.Get(a);
    l.Put(a, acct.SetPos(sym, acct.Pos(sym).(avail := acct.Pos(sym).avail + qty)))
  }

  /** The account after an attempt to lock, and why it failed if it did. */
  datatype Attempt = Attempt(account: Account, rejected: Option<Reason>)

  function LockIn(acct: Account, id: OrderId, sym: Symbol, side: Side, qty: real, price: Option<real>): Attempt {
    match side
    case Buy =>
      if price == None || acct.cashAvail < Value(price.value, qty) then Attempt(acct, Some(InsufficientCash))
      else
        var cost := Value(price.value, qty);
        Attempt(acct.(cashAvail := acct.cashAvail - cost, cashLocked := acct.cashLocked + cost,
                      locks := acct.locks[id := Lock(Buy, sym, cost, qty)]), None)
    case Sell =>
      var p := acct.Pos(sym);
      if p.avail < qty then Attempt(acct.SetPos(sym, p), Some(InsufficientPosition))
      else Attempt(acct.SetPos(sym, p.(avail := p.avail - qty, locked := p.locked + qty))
                       .(locks := acct.locks[id := Lock(Sell, sym, 0.0, qty)]), None)
  }

  /** Why an account cannot have this reserved, if it cannot: a BUY needs cash and a price, a SELL needs the shares. */
  function Shortage(acct: Account, sym: Symbol, side: Side, qty: real, price: Option<real>): Option<Reason> {
    match side
    case Buy => if price.Some? && price.value * qty <= acct.cashAvail then None else Some(InsufficientCash)
    case Sell => if qty <= acct.Pos(sym).avail then None else Some(InsufficientPosition)
  }

  lemma LockRefusals(acct: Account, id: OrderId, sym: Symbol, side: Side, qty: real, price: Option<real>)
    ensures LockIn(acct, id, sym, side, qty, price).rejected == Shortage(acct, sym, side, qty, price)
  {
  }

  datatype LockResult = LockResult(accounts: Accounts, rejected: Option<Reason>)

  function LockFunds(l: Accounts, a: AccountId, id: OrderId, sym: Symbol, side: Side, qty: real,
                     price: Option<real>): LockResult {
    var r := LockIn(l.Get(a), id, sym, side, qty, price);
    LockResult(l.Put(a, r.account), r.rejected)
  }

  /** Take a lock back into the account that holds it. */
  function Release(acct: Account, id: OrderId): Account {
    if id !in acct.locks then acct
    else
      var k := acct.locks[id];
      var a1 := acct.(locks := acct.locks - {id});
      if k.side == Buy then a1.(cashLocked := a1.cashLocked - k.cash, cashAvail := a1.cashAvail + k.cash)
      else
        var p := a1.Pos(k.symbol);
        a1.SetPos(k.symbol, p.(locked := p.locked - k.qty, avail := p.avail + k.qty))
  }

  function Unlock(l: Accounts, a: AccountId, id: OrderId): Accounts {
    l.Put(a, Release(l.Get(a), id))
  }

  /** A lock goes away only when both its cash and its quantity are used up. */
  function ReduceLock(acct: Account, id: OrderId, cash: real, qty: real): Account {
    if id !in acct.locks then acct
    else
      var k := acct.locks[id];
      var k' := k.(cash := k.cash - cash, qty := k.qty - qty);
      if k'.cash <= 0.0 && k'.qty <= 0.0 then acct.(locks := acct.locks - {id})
      else acct.(locks := acct.locks[id := k'])
  }

  function BuyLeg(acct: Account, id: OrderId, sym: Symbol, price: real, qty: real): Account {
    var p := acct.Pos(sym);
    var a1 := acct.SetPos(sym, p.(avail := p.avail + qty, cost := p.cost + Value(price, qty)))
                  .(cashLocked := acct.cashLocked - Value(price, qty));
    ReduceLock(a1, id, Value(price, qty), 0.0)
  }

  /** Whether there is a cost per share to reduce the basis by, given what is left in total. */
  predicate Divisible(left: real, qty: real) { left > 0.0 ==> left + qty != 0.0 }

  /** What remains of a position's cost basis once shares have left it. */
  function CostAfterSale(p: Position, qty: real): real {
    if p.Total() > 0.0 && p.Total() + qty != 0.0 then p.cost - p.cost / (p.Total() + qty) * qty else 0.0
  }

  function SellLeg(acct: Account, id: OrderId, sym: Symbol, price: real, qty: real): Account {
    var p := acct.Pos(sym).(locked := acct.Pos(sym).locked - qty);
    var a1 := acct.SetPos(sym, p.(cost := CostAfterSale(p, qty))).(cashAvail := acct.cashAvail + Value(price, qty));
    ReduceLock(a1, id, 0.0, qty)
  }

  /**
   * Whether the basis can be reduced once the shares have left the seller, or have come back if it buys them itself.
   */
  predicate Reducible(held: Position, qty: real, buysItself: bool) {
    Divisible(held.Total() - (if buysItself then 0.0 else qty), qty)
  }

  /** A settlement that does not divide by zero on its way, which only a negative quantity can. */
  predicate Settleable(l: Accounts, buyer: AccountId, seller: AccountId, sym: Symbol, qty: real) {
    qty < 0.0 ==> Reducible(l.Get(seller).Pos(sym), qty, buyer == seller)
  }

  lemma OnlyNegativeDivides(held: Position, qty: real, buysItself: bool)
    requires qty >= 0.0
    ensures Reducible(held, qty, buysItself)
  {
  }

  /** Moving a positive quantity never divides by zero. */
  lemma PositiveSettles(l: Accounts, buyer: AccountId, seller: AccountId, sym: Symbol, qty: real)
    requires qty > 0.0
    ensures Settleable(l, buyer, seller, sym, qty)
  {
  }

  /** Settle, or raise on the way. */
  function TrySettle(l: Accounts, buyer: AccountId, seller: AccountId, buyId: OrderId, sellId: OrderId,
                     sym: Symbol, price: real, qty: real): Outcome<Accounts> {
    if Settleable(l, buyer, seller, sym, qty) then Done(Settle(l, buyer, seller, buyId, sellId, sym, price, qty))
    else Raised(DivisionByZero)
  }

  /** Two-sided settlement; buyer and seller may be the same account. */
  function Settle(l: Accounts, buyer: AccountId, seller: AccountId, buyId: OrderId, sellId: OrderId,
                  sym: Symbol, price: real, qty: real): Accounts {
    var l1 := l.Put(buyer, l.Get(buyer));
    var l2 := l1.Put(seller, l1.Get(seller));
    var l3 := l2.Put(buyer, BuyLeg(l2.Get(buyer), buyId, sym, price, qty));
    l3.Put(seller, SellLeg(l3.Get(seller), sellId, sym, price, qty))
  }

  // ---------- settlement against the market ----------

  /** Whatever of the lock the price did not use goes back to the available cash. */
  function ReturnExcess(x: Account, id: OrderId, cost: real): Account {
    if id in x.locks && x.locks[id].cash - cost > 0.0
    then x.(cashLocked := x.cashLocked - (x.locks[id].cash - cost),
      cashAvail := x.cashAvail + (x.locks[id].cash - cost))
    else x
  }

  function MarketBuy(x: Account, id: OrderId, sym: Symbol, price: real, qty: real): Account {
    var p := x.Pos(sym);
    var x1 := x.SetPos(sym, p.(avail := p.avail + qty, cost := p.cost + Value(price, qty)))
               .(cashLocked := x.cashLocked - Value(price, qty));
    var x2 := ReturnExcess(x1, id, Value(price, qty));
    x2.(locks := x2.locks - {id})
  }

  function MarketSell(x: Account, id: OrderId, sym: Symbol, price: real, qty: real): Account {
    var p := x.Pos(sym).(locked := x.Pos(sym).locked - qty);
    x.SetPos(sym, p.(cost := CostAfterSale(p, qty))).(cashAvail := x.cashAvail + Value(price, qty),
      locks := x.locks - {id})
  }

  /** A settlement against the market that does not divide by zero on its way. */
  predicate SettleableOnMarket(x: Account, sym: Symbol, side: Side, qty: real) {
    side == Sell ==> Reducible(x.Pos(sym), qty, false)
  }

  function MarketLeg(x: Account, id: OrderId, sym: Symbol, side: Side, price: real, qty: real): Account {
    if side == Buy then MarketBuy(x, id, sym, price, qty) else MarketSell(x, id, sym, price, qty)
  }

  function SettleMarket(l: Accounts, a: AccountId, id: OrderId, sym: Symbol, side: Side, price: real,
                        qty: real): Accounts {
    l.Put(a, MarketLeg(l.Get(a), id, sym, side, price, qty))
  }

  // ---------- what an account's locks add up to ----------

  datatype Asset = Cash | Shares(symbol: Symbol)

  /** What one lock reserves of an asset. */
  function Reserve(asset: Asset, k: Lock): real {
    match asset
    case Cash => if k.side == Buy then k.cash else 0.0
    case Shares(sym) => if k.side == Sell && k.symbol == sym then k.qty else 0.0
  }

  ghost function Reserves(asset: Asset, locks: map<OrderId, Lock>): map<OrderId, real> {
    map id | id in locks :: Reserve(asset, locks[id])
  }

  ghost function Reserved(asset: Asset, locks: map<OrderId, Lock>): real { MapSum(Reserves(asset, locks)) }

  function Locked(asset: Asset, acct: Account): real {
    match asset
    case Cash => acct.cashLocked
    case Shares(sym) => acct.Pos(sym).locked
  }

  function Available(asset: Asset, acct: Account): real {
    match asset
    case Cash => acct.cashAvail
    case Shares(sym) => acct.Pos(sym).avail
  }

  lemma ReservedSet(asset: Asset, locks: map<OrderId, Lock>, id: OrderId, k: Lock)
    ensures Reserved(asset, locks[id := k]) ==
      Reserved(asset, locks) - (if id in locks then Reserve(asset, locks[id]) else 0.0) + Reserve(asset, k)
  {
    MapSumSet(Reserves(asset, locks), id, Reserve(asset, k));
    assert Reserves(asset, locks)[id := Reserve(asset, k)] == Reserves(asset, locks[id := k]);
  }

  lemma ReservedRemove(asset: Asset, locks: map<OrderId, Lock>, id: OrderId)
    requires id in locks
    ensures Reserved(asset, locks - {id}) == Reserved(asset, locks) - Reserve(asset, locks[id])
  {
    MapSumTake(Reserves(asset, locks), id);
    assert Reserves(asset, locks) - {id} == Reserves(asset, locks - {id});
  }

  /** Nothing available is negative, and what is locked is exactly what the order locks reserve. */
  ghost predicate AssetOk(asset: Asset, acct: Account) {
    Available(asset, acct) >= 0.0 && Locked(asset, acct) == Reserved(asset, acct.locks)
  }

  /** The cost basis is never negative, and a flat position carries none. */
  predicate CostOk(p: Position) { p.cost >= 0.0 && (p.Total() == 0.0 ==> p.cost == 0.0) }

  predicate LocksOk(locks: map<OrderId, Lock>) {
    forall id :: id in locks ==> locks[id].cash >= 0.0 && locks[id].qty > 0.0
  }

  ghost predicate Balanced(acct: Account) {
    && (forall asset :: AssetOk(asset, acct))
    && (forall sym :: CostOk(acct.Pos(sym)))
    && LocksOk(acct.locks)
  }

  /** In a balanced account nothing at all is negative. */
  lemma BalancedNonNegative(acct: Account, asset: Asset)
    requires Balanced(acct)
    ensures Locked(asset, acct) >= 0.0 && Available(asset, acct) >= 0.0
  {
    MapSumNonNegative(Reserves(asset, acct.locks));
    assert AssetOk(asset, acct);
  }

  lemma NewAccountBalanced()
    ensures Balanced(NEW_ACCOUNT)
  {
    forall asset ensures AssetOk(asset, NEW_ACCOUNT) {
      var none: map<OrderId, Lock> := map[];
      assert Reserves(asset, none) == map[];
    }
  }
}

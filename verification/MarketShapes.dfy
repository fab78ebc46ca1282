/** Which order shapes can overdraw an account in order-against-market mode: exactly BUY orders that are not sane. */
module MarketShapes {
  import opened Domain
  import opened Ledger
  import opened Orders
  import opened Exchange
  import opened Shapes
  import opened MarketMode
  import opened MarketRuns

  /** A SELL order may carry any price: it fills at the bid, which is positive. */
  predicate SafeShape(side: Side, otype: OrderType, price: Option<real>) {
    side == Buy ==> SaneShape(side, otype, price)
  }

  /** A command of a run in which every order is safe or has the given shape. */
  predicate SafeOrShaped(c: MarketCommand, side: Side, otype: OrderType, price: Option<real>) {
    Admissible(c) || (IsPlace(c) && Positive(c.command) && HasShape(c.command, side, otype, price))
  }

  predicate MarketUsesShape(cs: seq<MarketCommand>, side: Side, otype: OrderType, price: Option<real>) {
    MarketFreshIds(cs) && forall i :: 0 <= i < |cs| ==> SafeOrShaped(cs[i], side, otype, price)
  }

  /** The run ends with some account owing cash or shares, free or locked. */
  ghost predicate MarketOverdraws(cs: seq<MarketCommand>) {
    MarketExec(cs).Done? && exists a, asset ::
      || Available(asset, MarketExec(cs).value.accounts.Get(a)) < 0.0
      || Locked(asset, MarketExec(cs).value.accounts.Get(a)) < 0.0
  }

  // ---------- runs that overdraw ----------

  function Bid(otype: OrderType, price: real): Placement { Placement(1, "b", "x", Buy, otype, 1.0, Some(price), 0) }

  /** Cash comes in, a quote is fetched, and one share is bid for. */
  function BidAtQuote(cash: real, ask: real, otype: OrderType, price: real): seq<MarketCommand> {
    [User(CashIn("b", cash)), Fetch("x", Quote(0.0, ask)), User(Place(Bid(otype, price)))]
  }

  /** A BUY at a negative price locks a negative amount. */
  lemma NegativeBid(otype: OrderType, price: real) returns (cs: seq<MarketCommand>)
    requires price < 0.0
    ensures MarketUsesShape(cs, Buy, otype, Some(price)) && MarketOverdraws(cs)
  {
    cs := [User(Place(Bid(otype, price)))];
    assert cs == [] + cs;
    assert MarketUsesShape(cs, Buy, otype, Some(price));
    hide *;
    NothingYet();
    MarketLast([], cs[0]);
    NegativeLock(otype, price);
    OwesCash(cs, "b");
  }

  lemma NegativeLock(otype: OrderType, price: real)
    requires price < 0.0
    ensures MarketStep(OPENING, User(Place(Bid(otype, price)))).Done?
    ensures MarketStep(OPENING, User(Place(Bid(otype, price)))).value.accounts.Get("b").cashLocked == price
  {
    hide TryFill;
    assert Value(price, 1.0) == price;
  }

  lemma OwesCash(cs: seq<MarketCommand>, a: AccountId)
    requires MarketExec(cs).Done? && MarketExec(cs).value.accounts.Get(a).cashLocked < 0.0
    ensures MarketOverdraws(cs)
  {
    hide MarketExec;
    assert Locked(Cash, MarketExec(cs).value.accounts.Get(a)) < 0.0;
  }

  /** The account and the quote when the bid comes. */
  lemma CashAndQuote(cash: real, ask: real)
    requires cash > 0.0
    ensures var cs := [User(CashIn("b", cash)), Fetch("x", Quote(0.0, ask))];
      && MarketExec(cs).Done?
      && var m := MarketExec(cs).value;
      && m.accounts.Get("b") == Account(cash, 0.0, map[], map[]) && m.repo == Repo([], map[])
      && m.quotes == map["x" := Quote(0.0, ask)]
  {
    hide *;
    var c, d := User(CashIn("b", cash)), Fetch("x", Quote(0.0, ask));
    assert [c] == [] + [c] && [c, d] == [c] + [d];
    NothingYet();
    MarketLast([], c);
    CashArrives(cash);
    MarketLast([c], d);
    Fetched(MarketExec([c]).value, "x", Quote(0.0, ask));
  }

  lemma NothingYet()
    ensures MarketExec([]) == Done(OPENING)
  {
  }

  lemma Fetched(m: Venue, sym: Symbol, q: Quote)
    ensures MarketStep(m, Fetch(sym, q)) == Done(m.(quotes := m.quotes[sym := q]))
  {
  }

  lemma CashArrives(cash: real)
    ensures MarketStep(OPENING, User(CashIn("b", cash))).Done?
    ensures var m := MarketStep(OPENING, User(CashIn("b", cash))).value;
      && m.accounts.Get("b") == Account(cash, 0.0, map[], map[]) && m.repo == Repo([], map[]) && m.quotes == map[]
  {
  }

  lemma BidTakenIn(m: Venue, cash: real, otype: OrderType, price: real)
    requires m.accounts.Get("b") == Account(cash, 0.0, map[], map[]) && m.repo == Repo([], map[]) && cash >= price
    ensures var p := Bid(otype, price);
      var m1 := AfterMarketIntake(m, p);
      && m1.accounts.Get("b") == Account(cash - price, price, map[], map[1 := Lock(Buy, "x", price, 1.0)])
      && m1.repo == Repo([1], map[1 := NewOrder(p).(status := Routed)]) && m1.quotes == m.quotes
  {
    assert Value(price, 1.0) == price;
  }

  /** The fill pays the ask, whatever was locked. */
  lemma BidPays(x: Account, price: real, ask: real)
    requires x.cashLocked == price && x.locks == map[1 := Lock(Buy, "x", price, 1.0)] && price <= ask
    ensures MarketLeg(x, 1, "x", Buy, ask, 1.0).cashLocked == price - ask
  {
    assert Value(ask, 1.0) == ask;
  }

  lemma BidFills(m: Venue, otype: OrderType, price: real, ask: real)
    requires m.repo == Repo([1], map[1 := NewOrder(Bid(otype, price)).(status := Routed)])
    requires Fillable(m.repo.orders[1], Quote(0.0, ask))
    ensures TryFill(m, 1, Quote(0.0, ask)).Done?
    ensures TryFill(m, 1, Quote(0.0, ask)).value.accounts == SettleMarket(m.accounts, "b", 1, "x", Buy, ask, 1.0)
  {
    hide SettleMarket;
  }

  /** A priced MARKET BUY locks at its price but pays whatever is asked, up to the market price. */
  lemma PricedMarketBid(price: real) returns (cs: seq<MarketCommand>)
    requires 0.0 <= price < 999999999.0
    ensures MarketUsesShape(cs, Buy, Market, Some(price)) && MarketOverdraws(cs)
  {
    var ask, cash := 999999999.0, price + 1.0;
    cs := BidAtQuote(cash, ask, Market, price);
    var init := [User(CashIn("b", cash)), Fetch("x", Quote(0.0, ask))];
    assert cs == init + [User(Place(Bid(Market, price)))];
    assert MarketUsesShape(cs, Buy, Market, Some(price));
    hide *;
    CashAndQuote(cash, ask);
    MarketLast(init, User(Place(Bid(Market, price))));
    BidOwes(MarketExec(init).value, cash, price, ask);
    OwesCash(cs, "b");
  }

  lemma BidOwes(m: Venue, cash: real, price: real, ask: real)
    requires m.accounts.Get("b") == Account(cash, 0.0, map[], map[]) && m.repo == Repo([], map[])
    requires m.quotes == map["x" := Quote(0.0, ask)] && 0.0 <= price < ask == 999999999.0 && cash >= price
    ensures MarketStep(m, User(Place(Bid(Market, price)))).Done?
    ensures MarketStep(m, User(Place(Bid(Market, price)))).value.accounts.Get("b").cashLocked < 0.0
  {
    hide SettleMarket, TryFill, MarketLeg, AfterMarketIntake;
    BidTakenIn(m, cash, Market, price);
    var m1 := AfterMarketIntake(m, Bid(Market, price));
    BidFills(m1, Market, price, ask);
    BidPays(m1.accounts.Get("b"), price, ask);
    SettledIn(m1.accounts, "b", 1, "x", ask, 1.0);
  }

  lemma SettledIn(l: Accounts, a: AccountId, id: OrderId, sym: Symbol, price: real, qty: real)
    ensures SettleMarket(l, a, id, sym, Buy, price, qty).Get(a) == MarketLeg(l.Get(a), id, sym, Buy, price, qty)
  {
    hide MarketLeg;
  }

  // ---------- exactly the safe shapes are safe ----------

  lemma SafeRuns(cs: seq<MarketCommand>, side: Side, otype: OrderType, price: Option<real>)
    requires MarketUsesShape(cs, side, otype, price) && SafeShape(side, otype, price)
    ensures MarketWellFormed(cs)
  {
    forall i | 0 <= i < |cs| ensures Admissible(cs[i]) { assert SafeOrShaped(cs[i], side, otype, price); }
  }

  /**
   * Exactly the safe shapes are safe: an order shape can be let in next to safe orders without any run of this mode
   * ever overdrawing an account if and only if it is a SELL, or a BUY that is sane.
   */
  lemma SafeIsSafe(side: Side, otype: OrderType, price: Option<real>)
    ensures SafeShape(side, otype, price) <==>
      forall cs :: MarketUsesShape(cs, side, otype, price) ==> !MarketOverdraws(cs)
  {
    if SafeShape(side, otype, price) {
      forall cs | MarketUsesShape(cs, side, otype, price) ensures !MarketOverdraws(cs) {
        SafeRuns(cs, side, otype, price);
        forall a, asset ensures MarketExec(cs).Done? ==>
          && Available(asset, MarketExec(cs).value.accounts.Get(a)) >= 0.0
          && Locked(asset, MarketExec(cs).value.accounts.Get(a)) >= 0.0
        {
          MarketNoOverdraft(cs, a, asset);
        }
      }
    } else if price.value < 0.0 {
      var cs := NegativeBid(otype, price.value);
    } else {
      var cs := PricedMarketBid(price.value);
    }
  }
}

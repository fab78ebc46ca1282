/** Which order shapes can overdraw an account: exactly those that are not sane. */
module Shapes {
  import opened Domain
  import opened PriceTime
  import opened Matching
  import opened Ledger
  import opened LedgerLaws
  import opened Orders
  import opened Exchange
  import opened Runs
  import opened LogShape

  predicate HasShape(c: Command, side: Side, otype: OrderType, price: Option<real>) {
    c.Place? && c.placement.side == side && c.placement.otype == otype && c.placement.price == price
  }

  /** A run in which every order is sane or has the given shape. */
  predicate UsesShape(cmds: seq<Command>, side: Side, otype: OrderType, price: Option<real>) {
    WellFormed(cmds) && forall i :: 0 <= i < |cmds| ==> Sane(cmds[i]) || HasShape(cmds[i], side, otype, price)
  }

  /** The run ends with some account owing cash or shares, free or locked. */
  ghost predicate Overdraws(cmds: seq<Command>) {
    Exec(cmds).Done? && exists a, asset ::
      Available(asset, Exec(cmds).value.accounts.Get(a)) < 0.0 || Locked(asset, Exec(cmds).value.accounts.Get(a)) < 0.0
  }

  lemma RunPlace(cmds: seq<Command>, p: Placement)
    requires Exec(cmds).Done?
    ensures Exec(cmds + [Place(p)]) == PlaceOrder(Exec(cmds).value, p)
  {
    hide PlaceOrder;
    LastCommand(cmds, Place(p));
  }

  /** A BUY at a negative price locks a negative amount. */
  lemma NegativeBuy(otype: OrderType, price: real) returns (cmds: seq<Command>)
    requires price < 0.0
    ensures UsesShape(cmds, Buy, otype, Some(price)) && Overdraws(cmds)
  {
    var p := Placement(1, "b", "x", Buy, otype, 1.0, Some(price), 0);
    cmds := [Place(p)];
    assert cmds == [] + [Place(p)];
    LastCommand([], Place(p));
    var o := NewOrder(p).(status := Routed);
    assert Insort([], Entry(o)) == [Entry(o)];
    assert Submit("x", EMPTY_BOOK, Buy, Entry(o)) == Matched([], Book([Entry(o)], []));
    assert Exec(cmds).value.accounts.Get("b").cashLocked == price;
    assert Locked(Cash, Exec(cmds).value.accounts.Get("b")) < 0.0;
  }

  // ---------- a seller and a buyer ----------

  function SellerOrder(ask: real): Placement { Placement(1, "s", "x", Sell, Limit, 1.0, Some(ask), 0) }

  function BuyerOrder(otype: OrderType, price: real): Placement {
    Placement(2, "b", "x", Buy, otype, 1.0, Some(price), 1)
  }

  /** One share comes in and is offered; cash comes in and one share is bid for. */
  function Meeting(ask: real, cash: real, otype: OrderType, price: real): seq<Command> {
    [SharesIn("s", "x", 1.0), Place(SellerOrder(ask)), CashIn("b", cash), Place(BuyerOrder(otype, price))]
  }

  function Offer(ask: real): Order { NewOrder(SellerOrder(ask)).(status := Routed) }

  /** The offer is on the book and the share is locked. */
  predicate Offered(s: State, ask: real, cash: real) {
    && s.accounts.Get("s")
      == Account(0.0, 0.0, map["x" := Position(0.0, 1.0, 0.0)], map[1 := Lock(Sell, "x", 0.0, 1.0)])
    && s.accounts.Get("b") == Account(cash, 0.0, map[], map[])
    && s.repo == Repo([1], map[1 := Offer(ask)])
    && BookOf(s.books, "x") == Book([], [Entry(Offer(ask))])
    && s.seen == {1}
  }

  lemma OfferMade(ask: real, cash: real)
    ensures Exec([SharesIn("s", "x", 1.0), Place(SellerOrder(ask)), CashIn("b", cash)]).Done?
    ensures Offered(Exec([SharesIn("s", "x", 1.0), Place(SellerOrder(ask)), CashIn("b", cash)]).value, ask, cash)
  {
    var c1, c2, c3 := SharesIn("s", "x", 1.0), Place(SellerOrder(ask)), CashIn("b", cash);
    LastCommand([], c1);
    assert [] + [c1] == [c1];
    var s1 := Exec([c1]).value;
    LastCommand([c1], c2);
    assert [c1] + [c2] == [c1, c2];
    OfferRests(s1, ask);
    LastCommand([c1, c2], c3);
    assert [c1, c2] + [c3] == [c1, c2, c3];
  }

  lemma OfferRests(s: State, ask: real)
    requires s.accounts.Get("s") == Account(0.0, 0.0, map["x" := Position(1.0, 0.0, 0.0)], map[])
    requires s.accounts.Get("b") == NEW_ACCOUNT && s.repo == INITIAL.repo && s.books == map[] && s.seen == {}
    ensures PlaceOrder(s, SellerOrder(ask)).Done? && Offered(PlaceOrder(s, SellerOrder(ask)).value, ask, 0.0)
  {
    var o := Offer(ask);
    assert Insort([], Entry(o)) == [Entry(o)];
    assert Submit("x", EMPTY_BOOK, Sell, Entry(o)) == Matched([], Book([], [Entry(o)]));
    var r := LockIn(s.accounts.Get("s"), 1, "x", Sell, 1.0, Some(ask));
    assert r.rejected == None;
    assert r.account.positions == map["x" := Position(0.0, 1.0, 0.0)];
  }

  /** The book and the trade when the bid meets the offer. */
  lemma BidCrosses(s: State, ask: real, cash: real, otype: OrderType, price: real)
    requires Offered(s, ask, cash) && EffectivePrice(Buy, otype, Some(price)) >= ask
    ensures var e := Entry(NewOrder(BuyerOrder(otype, price)));
      Submit("x", BookOf(s.books, "x"), Buy, e) == Matched([Trade("x", ask, 1.0, 2, 1, Sell)], Book([], []))
  {
    var bid, offer := Entry(NewOrder(BuyerOrder(otype, price))), Entry(Offer(ask));
    assert Insort([], bid) == [bid];
    var b := Book([bid], [offer]);
    assert Crossable(b);
    assert CrossOnce(b) == Book([], []);
    var t := TradeBetween("x", bid, offer);
    assert t == Trade("x", ask, 1.0, 2, 1, Sell);
    assert Match("x", CrossOnce(b)) == Matched([], Book([], []));
  }

  /** The bid takes the offer at the offer's price: the buyer's lock pays it, whatever was locked. */
  lemma {:induction false} BidMet(s: State, ask: real, cash: real, otype: OrderType, price: real)
    requires Offered(s, ask, cash) && cash >= price && EffectivePrice(Buy, otype, Some(price)) >= ask
    ensures var r := PlaceOrder(s, BuyerOrder(otype, price));
      && r.Done? && r.value.accounts.Get("b").cashLocked == price - ask && r.value.accounts.Get("s").cashAvail == ask
      && 2 in r.value.repo.orders && r.value.repo.orders[2].status == Status.Filled
  {
    var p := BuyerOrder(otype, price);
    BidCrosses(s, ask, cash, otype, price);
    var t := Trade("x", ask, 1.0, 2, 1, Sell);
    BidLocked(s, ask, cash, otype, price);
    PlaceUnfolds(s, p);
    BidSettles(DeskFor(s, p), ask, cash, otype, price);
    assert TradesOf(s, p) == [t];
    hide ApplyTrade, Submit, Offered;
    assert [t][1..] == [];
  }

  lemma BidLocked(s: State, ask: real, cash: real, otype: OrderType, price: real)
    requires Offered(s, ask, cash) && cash >= price
    ensures var p := BuyerOrder(otype, price);
      var d := DeskFor(s, p);
      && Accepts(s, p)
      && d.accounts.Get("s") == s.accounts.Get("s")
      && d.accounts.Get("b") == Account(cash - price, price, map[], map[2 := Lock(Buy, "x", price, 1.0)])
      && d.repo.orders == map[1 := Offer(ask), 2 := NewOrder(p).(status := Routed)]
  {
    var x := LockIn(s.accounts.Get("b"), 2, "x", Buy, 1.0, Some(price));
    assert Value(price, 1.0) == price;
    assert x.rejected == None;
  }

  lemma {:induction false} BidSettles(d: Desk, ask: real, cash: real, otype: OrderType, price: real)
    requires d.accounts.Get("s")
      == Account(0.0, 0.0, map["x" := Position(0.0, 1.0, 0.0)], map[1 := Lock(Sell, "x", 0.0, 1.0)])
    requires d.accounts.Get("b") == Account(cash - price, price, map[], map[2 := Lock(Buy, "x", price, 1.0)])
    requires d.repo.orders == map[1 := Offer(ask), 2 := NewOrder(BuyerOrder(otype, price)).(status := Routed)]
    ensures var r := ApplyTrade(d, Trade("x", ask, 1.0, 2, 1, Sell));
      && r.Done? && r.value.accounts.Get("b").cashLocked == price - ask && r.value.accounts.Get("s").cashAvail == ask
      && 2 in r.value.repo.orders && r.value.repo.orders[2].status == Status.Filled
  {
    hide Settle;
    PositiveSettles(d.accounts, "b", "s", "x", 1.0);
    var t := Trade("x", ask, 1.0, 2, 1, Sell);
    assert ApplyTrade(d, t).Done?;
    MeetingSettles(d.accounts, price, ask, cash);
    assert ApplyTrade(d, t).value.accounts == Settle(d.accounts, "b", "s", 2, 1, "x", ask, 1.0);
  }

  lemma {:induction false} MeetingSettles(l: Accounts, price: real, ask: real, cash: real)
    requires l.Get("s") == Account(0.0, 0.0, map["x" := Position(0.0, 1.0, 0.0)], map[1 := Lock(Sell, "x", 0.0, 1.0)])
    requires l.Get("b") == Account(cash - price, price, map[], map[2 := Lock(Buy, "x", price, 1.0)])
    ensures var l' := Settle(l, "b", "s", 2, 1, "x", ask, 1.0);
      l'.Get("b").cashLocked == price - ask && l'.Get("s").cashAvail == ask
  {
    hide *;
    assert "b"[0] != "s"[0];
    ValueOfOne(ask);
    BuyLegCash(l.Get("b"), 2, "x", ask, 1.0);
    SellLegCash(l.Get("s"), 1, "x", ask, 1.0);
    SettleApart(l, "b", "s", 2, 1, "x", ask, 1.0);
  }

  lemma ValueOfOne(price: real)
    ensures Value(price, 1.0) == price
  {
  }

  lemma BuyLegCash(x: Account, id: OrderId, sym: Symbol, price: real, qty: real)
    ensures BuyLeg(x, id, sym, price, qty).cashLocked == x.cashLocked - Value(price, qty)
  {
  }

  lemma SellLegCash(x: Account, id: OrderId, sym: Symbol, price: real, qty: real)
    ensures SellLeg(x, id, sym, price, qty).cashAvail == x.cashAvail + Value(price, qty)
  {
  }

  lemma MeetingOutcome(ask: real, cash: real, otype: OrderType, price: real)
    requires cash >= price && EffectivePrice(Buy, otype, Some(price)) >= ask
    ensures var r := Exec(Meeting(ask, cash, otype, price));
      && r.Done? && r.value.accounts.Get("b").cashLocked == price - ask && r.value.accounts.Get("s").cashAvail == ask
      && 2 in r.value.repo.orders && r.value.repo.orders[2].status == Status.Filled
  {
    hide Exec, PlaceOrder, EffectivePrice, BuyerOrder, SellerOrder, Offered;
    OfferMade(ask, cash);
    var init := [SharesIn("s", "x", 1.0), Place(SellerOrder(ask)), CashIn("b", cash)];
    RunPlace(init, BuyerOrder(otype, price));
    assert init + [Place(BuyerOrder(otype, price))] == Meeting(ask, cash, otype, price);
    BidMet(Exec(init).value, ask, cash, otype, price);
  }

  lemma MeetingUses(ask: real, cash: real, side: Side, otype: OrderType, price: real, bid: real)
    requires cash > 0.0
    requires (side == Buy && price == bid && SaneShape(Sell, Limit, Some(ask))) ||
             (side == Sell && otype == Limit && price == ask && bid == 0.0)
    ensures UsesShape(Meeting(ask, cash, if side == Buy then otype else Limit, bid), side, otype, Some(price))
  {
  }

  /** A priced MARKET BUY locks at its price but takes whatever is offered up to the market price. */
  lemma PricedMarketBuy(price: real) returns (cmds: seq<Command>)
    requires 0.0 <= price < 999999999.0
    ensures UsesShape(cmds, Buy, Market, Some(price)) && Overdraws(cmds)
  {
    var ask := 999999999.0;
    cmds := Meeting(ask, price + 1.0, Market, price);
    MeetingOutcome(ask, price + 1.0, Market, price);
    hide Exec;
    MeetingUses(ask, price + 1.0, Buy, Market, price, price);
    assert Locked(Cash, Exec(cmds).value.accounts.Get("b")) < 0.0;
  }

  /** An offer at a negative price makes its seller pay. */
  lemma NegativeOffer(price: real) returns (cmds: seq<Command>)
    requires price < 0.0
    ensures UsesShape(cmds, Sell, Limit, Some(price)) && Overdraws(cmds)
  {
    cmds := Meeting(price, 1.0, Limit, 0.0);
    MeetingOutcome(price, 1.0, Limit, 0.0);
    hide Exec;
    MeetingUses(price, 1.0, Sell, Limit, price, 0.0);
    assert Available(Cash, Exec(cmds).value.accounts.Get("s")) < 0.0;
  }

  /**
   * Exactly the sane shapes are safe: an order shape can be let in next to sane orders without any run ever
   * overdrawing an account if and only if it is sane itself.
   */
  lemma SaneIsSafe(side: Side, otype: OrderType, price: Option<real>)
    ensures SaneShape(side, otype, price) <==> forall cmds :: UsesShape(cmds, side, otype, price) ==> !Overdraws(cmds)
  {
    if SaneShape(side, otype, price) {
      forall cmds | UsesShape(cmds, side, otype, price) ensures !Overdraws(cmds) {
        forall a, asset ensures Exec(cmds).Done? ==>
          Available(asset, Exec(cmds).value.accounts.Get(a)) >= 0.0 &&
            Locked(asset, Exec(cmds).value.accounts.Get(a)) >= 0.0
        {
          NoOverdraft(cmds, a, asset);
        }
      }
    } else if side == Sell {
      var cmds := NegativeOffer(price.value);
    } else if price.value < 0.0 {
      var cmds := NegativeBuy(otype, price.value);
    } else {
      var cmds := PricedMarketBuy(price.value);
    }
  }
}

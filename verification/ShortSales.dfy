/** What the first-in-first-out queues come to, without the queues: the shares ever sold short. */
module ShortSales {
  import opened Domain
  import opened RealizedPnl

  function Max(a: real, b: real): real { if a >= b then a else b }

  /** By how much more of a symbol was sold than bought. */
  function Net(lots: seq<Lot>, sym: Symbol): real { Volume(lots, sym, Side.Sell) - Volume(lots, sym, Buy) }

  /** The most it ever was, and 0 if it never was more. */
  function Short(lots: seq<Lot>, sym: Symbol): real {
    if lots == [] then 0.0 else Max(Short(lots[..|lots| - 1], sym), Net(lots, sym))
  }

  /** Short is the least bound of what was net sold at any time, the beginning included. */
  lemma {:induction false} ShortIsMost(lots: seq<Lot>, sym: Symbol)
    ensures forall k :: 0 <= k <= |lots| ==> Net(lots[..k], sym) <= Short(lots, sym)
    ensures exists k :: 0 <= k <= |lots| && Net(lots[..k], sym) == Short(lots, sym)
  {
    assert lots[..|lots|] == lots;
    if lots == [] {
      assert Net(lots[..0], sym) == Short(lots, sym);
    } else {
      var n := |lots| - 1;
      var init := lots[..n];
      assert forall k :: 0 <= k <= n ==> init[..k] == lots[..k];
      ShortIsMost(init, sym);
      var k :| 0 <= k <= n && Net(init[..k], sym) == Short(init, sym);
      hide Net;
      assert Net(lots[..k], sym) == Short(lots, sym) || Net(lots[..|lots|], sym) == Short(lots, sym);
    }
  }

  /** What was asked for the shares sold short, each sale counting for what it added to them. */
  function AskedShort(lots: seq<Lot>): real {
    if lots == [] then 0.0
    else
      var init, x := lots[..|lots| - 1], lots[|lots| - 1];
      AskedShort(init) + Cost(Short(lots, x.symbol) - Short(init, x.symbol), x.price)
  }

  // ---------- stock ----------

  /** The stock of a symbol is its purchases without what was sold of it, as far as that was not sold short. */
  ghost predicate ShortStock(lots: seq<Lot>, sym: Symbol) {
    var q, bought := Tallied(lots).Queue(sym), Purchases(lots, sym);
    var delivered := Volume(lots, sym, Side.Sell) - Short(lots, sym);
    && Positive(q) && Positive(bought) && Shares(bought) == Volume(lots, sym, Buy) && 0.0 <= delivered
    && q == Drop(bought, delivered) && Shares(q) == Shares(bought) - delivered
  }

  /** A sale takes what there is. */
  lemma StockTaken(q: seq<Layer>, bought: seq<Layer>, sold: real, qty: real, price: real)
    requires Positive(bought) && Positive(q) && 0.0 <= sold && q == Drop(bought, sold)
    requires Shares(q) == Shares(bought) - sold && qty > 0.0
    ensures var s := RealizedPnl.Sell(q, qty, price);
      && s.left == Max(0.0, qty - Shares(q)) && Positive(s.queue)
      && s.queue == Drop(bought, sold + (qty - s.left)) && Shares(s.queue) == Shares(bought) - (sold + (qty - s.left))
  {
    hide RealizedPnl.Sell, Drop, Positive, Shares;
    SaleBooks(q, qty, price);
    CoveredSale(q, qty, price);
    SharesPositive(q);
    if qty <= Shares(q) {
      DropTwice(bought, sold, qty);
    } else {
      SharesPositive(RealizedPnl.Sell(q, qty, price).queue);
      DropTwice(bought, sold, Shares(q));
      DropsAll(q, price);
    }
  }

  lemma DropsAll(q: seq<Layer>, price: real)
    requires Positive(q)
    ensures Drop(q, Shares(q)) == []
  {
    hide RealizedPnl.Sell, Drop, Positive, Shares;
    SharesPositive(q);
    SaleBooks(q, Shares(q), price);
    CoveredSale(q, Shares(q), price);
    SharesPositive(RealizedPnl.Sell(q, Shares(q), price).queue);
  }

  lemma ShortStep(init: seq<Lot>, x: Lot, sym: Symbol)
    ensures Short(init + [x], sym) == Max(Short(init, sym), Net(init + [x], sym))
    ensures Net(init + [x], sym) == Net(init, sym) +
      if x.symbol != sym then 0.0 else if x.side == Buy then -x.qty else x.qty
  {
    assert (init + [x])[..|init|] == init;
  }

  lemma {:induction false} NetWithinShort(lots: seq<Lot>, sym: Symbol)
    ensures Net(lots, sym) <= Short(lots, sym) && 0.0 <= Short(lots, sym)
  {
    if lots != [] { NetWithinShort(lots[..|lots| - 1], sym); }
  }

  lemma ShortStockStep(init: seq<Lot>, x: Lot, sym: Symbol)
    requires ShortStock(init, sym) && x.qty > 0.0
    ensures ShortStock(init + [x], sym)
    ensures x.symbol == sym ==> Uncovered(Tallied(init), x) == Short(init + [x], sym) - Short(init, sym)
  {
    hide RealizedPnl.Sell, Drop, Shares, Positive, Tallied, Record, Purchases, Volume, Short;
    var q, bought := Tallied(init).Queue(sym), Purchases(init, sym);
    var delivered := Volume(init, sym, Side.Sell) - Short(init, sym);
    OneMoreTrade(init, x, sym);
    RecordQueue(Tallied(init), x, sym);
    TalliedAppend(init, x);
    ShortStep(init, x, sym);
    NetWithinShort(init, sym);
    if x.symbol == sym {
      if x.side == Buy { StockBought(q, bought, delivered, Layer(x.qty, x.price)); }
      else { StockTaken(q, bought, delivered, x.qty, x.price); }
    }
  }

  /**
   * For every trade list, oversold or not: what is left of a symbol is its purchases in order, with what was sold of it
   * taken off the front, as far as that was not sold short.
   */
  lemma {:induction false} StockIsPurchasesLessSales(lots: seq<Lot>, sym: Symbol)
    requires Traded(lots)
    ensures ShortStock(lots, sym)
  {
    if lots != [] {
      var init, x := lots[..|lots| - 1], lots[|lots| - 1];
      assert lots == init + [x];
      StockIsPurchasesLessSales(init, sym);
      hide ShortStock;
      ShortStockStep(init, x, sym);
    }
  }

  // ---------- profit ----------

  lemma {:induction false} UnbookedIsShort(lots: seq<Lot>)
    requires Traded(lots)
    ensures Unbooked(lots) == AskedShort(lots)
  {
    hide Cost, Short, Tallied, Uncovered, ShortStock, Record;
    if lots != [] {
      var init, x := lots[..|lots| - 1], lots[|lots| - 1];
      assert lots == init + [x];
      UnbookedIsShort(init);
      StockIsPurchasesLessSales(init, x.symbol);
      ShortStockStep(init, x, x.symbol);
    }
  }

  /**
   * Realised profit, for every trade list: what was paid for sales, less what was asked for shares sold short, less
   * what was paid for purchases, plus the cost of the stock left.
   */
  lemma {:induction false} ProfitInFull(lots: seq<Lot>)
    requires Traded(lots)
    ensures Tallied(lots).realized == Paid(lots, Side.Sell) - AskedShort(lots) - Paid(lots, Buy) + Stock(Tallied(lots))
  {
    ProfitIdentity(lots);
    UnbookedIsShort(lots);
  }

  /** Exactly when the books balance, whatever the prices: if what was asked for shares sold short comes to nothing. */
  lemma {:induction false} ProfitExactly(lots: seq<Lot>)
    requires Traded(lots)
    ensures Balances(lots) <==> AskedShort(lots) == 0.0
  {
    ProfitInFull(lots);
    hide Tallied, AskedShort, Paid, Stock;
  }

  /** Nothing is oversold exactly when nothing is ever sold short. */
  lemma {:induction false} NothingShort(lots: seq<Lot>)
    ensures NoOversell(lots) <==> forall sym :: Short(lots, sym) == 0.0
  {
    if NoOversell(lots) {
      forall sym ensures Short(lots, sym) == 0.0 {
        ShortIsMost(lots, sym);
        NetWithinShort(lots, sym);
        var k :| 0 <= k <= |lots| && Net(lots[..k], sym) == Short(lots, sym);
        assert Volume(lots[..k], sym, Side.Sell) <= Volume(lots[..k], sym, Buy);
      }
    } else {
      var k, sym :| 0 <= k <= |lots| && !(Volume(lots[..k], sym, Side.Sell) <= Volume(lots[..k], sym, Buy));
      ShortIsMost(lots, sym);
      assert Net(lots[..k], sym) <= Short(lots, sym);
      assert Short(lots, sym) != 0.0;
    }
  }

  /** Sold short at a price and again at its negative: what was asked comes to nothing, and the books balance. */
  lemma ShortButBalanced()
    ensures var lots := [Lot("x", Side.Sell, 1.0, 1.0), Lot("x", Side.Sell, 1.0, -1.0)];
      Traded(lots) && !NoOversell(lots) && Balances(lots)
  {
    var a, b := Lot("x", Side.Sell, 1.0, 1.0), Lot("x", Side.Sell, 1.0, -1.0);
    hide Balances, NoOversell;
    TwoShort([a, b]);
    ProfitExactly([a, b]);
    NothingShort([a, b]);
  }

  lemma TwoShort(lots: seq<Lot>)
    requires lots == [Lot("x", Side.Sell, 1.0, 1.0), Lot("x", Side.Sell, 1.0, -1.0)]
    ensures Short(lots, "x") == 2.0 && AskedShort(lots) == 0.0
  {
    var a, b := lots[0], lots[1];
    assert lots == [a] + [b] && [a] == [] + [a];
    ShortStep([], a, "x");
    ShortStep([a], b, "x");
    assert Net([], "x") == 0.0 && Short([], "x") == 0.0;
    assert ([a] + [b])[..1] == [a] && [a][..0] == [];
    hide Net, Short;
    assert AskedShort([]) == 0.0;
    assert AskedShort([a]) == 1.0;
  }
}
